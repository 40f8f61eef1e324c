/** naviq_mts160/naviq_mts160/decoder.py: COB-ID arithmetic, the TPDO and
    heartbeat codecs, frame dispatch and the mounting-flip conventions. */
module Decoder {
  import opened Bytes

  const FC_TPDO1 := 0x180
  const FC_TPDO2 := 0x280
  const FC_TPDO3 := 0x380
  const FC_SDO_TX := 0x580
  const FC_SDO_RX := 0x600
  const FC_HEARTBEAT := 0x700

  const NMT_OPERATIONAL := 0x05

  datatype TrackFrame = TrackFrame(
    leftPosition: int, rightPosition: int, leftAngle: int, rightAngle: int,
    strength: int, leftMarker: bool, rightMarker: bool,
    intersection: bool, fork: bool, merge: bool, fault: bool, status: byte)
  {
    predicate TapeDetected() { strength != 0 }

    predicate SingleTrack() { leftPosition == rightPosition && leftAngle == rightAngle }
  }

  /** Raw values, tenths of a millimetre. */
  datatype MarkerFrame = MarkerFrame(leftX: int, leftY: int, rightX: int, rightY: int)

  datatype NavicodeFrame = NavicodeFrame(code: nat, counter: byte)

  datatype Decoded =
    | Track(track: TrackFrame)
    | Marker(marker: MarkerFrame)
    | Navicode(navicode: NavicodeFrame)
    | Heartbeat(state: byte)

  datatype WrongLength = WrongLength(canId: nat, expected: nat, actual: nat)

  // ---------------------------------------------------------------- COB-IDs

  function FunctionCode(canId: nat): nat { canId / 128 % 16 * 128 }

  function NodeIdOf(canId: nat): nat { canId % 128 }

  predicate IsNodeFrame(canId: nat, nodeId: nat) {
    NodeIdOf(canId) == nodeId && canId <= 0x7FF
  }

  predicate ValidNodeId(nodeId: int) { 1 <= nodeId <= 127 }

  /** The identifiers a sensor with this node id uses. */
  function CobIds(nodeId: nat): Option<set<nat>> {
    if ValidNodeId(nodeId) then
      Some({FC_TPDO1 + nodeId, FC_TPDO2 + nodeId, FC_TPDO3 + nodeId,
            FC_HEARTBEAT + nodeId, FC_SDO_TX + nodeId, FC_SDO_RX + nodeId})
    else
      None
  }

  /** An 11-bit identifier splits into a function code and a node id in exactly one way. */
  lemma IdSplitsUniquely(canId: nat, fc: nat, nodeId: nat)
    requires canId <= 0x7FF
    ensures (fc % 128 == 0 && nodeId < 128 && canId == fc + nodeId)
       <==> (fc == FunctionCode(canId) && nodeId == NodeIdOf(canId))
  {
  }

  /** No identifier belongs to two nodes, and a node's frames are recognised by it alone. */
  lemma CobIdsDisjoint(m: nat, n: nat)
    requires ValidNodeId(m) && ValidNodeId(n)
    ensures forall id :: id in CobIds(m).value ==> (IsNodeFrame(id, n) <==> m == n)
    ensures m != n ==> CobIds(m).value !! CobIds(n).value
  {
    CobIdsOf(m);
    CobIdsOf(n);
  }

  lemma CobIdsOf(n: nat)
    requires ValidNodeId(n)
    ensures CobIds(n).value == {0x180 + n, 0x280 + n, 0x380 + n, 0x580 + n, 0x600 + n, 0x700 + n}
    ensures forall id :: id in CobIds(n).value ==> NodeIdOf(id) == n && id <= 0x7FF
  {
    assert 0x180 % 128 == 0 && (0x180 + n) % 128 == n && (0x280 + n) % 128 == n && (0x380 + n) % 128 == n;
    assert (0x580 + n) % 128 == n && (0x600 + n) % 128 == n && (0x700 + n) % 128 == n;
  }

  // ------------------------------------------------------------ status byte

  function Bit(status: byte, weight: int): bool
    requires weight > 0
  {
    status / weight % 2 == 1
  }

  function Flag(b: bool): (v: int)
    ensures 0 <= v <= 1
  {
    if b then 1 else 0
  }

  function EncodeStatus(strength: int, leftMarker: bool, rightMarker: bool,
                        intersection: bool, fork: bool, merge: bool, fault: bool): Option<byte>
  {
    if !(0 <= strength <= 3) then None else
      Some(strength * 2 + 0x08 * Flag(leftMarker) + 0x10 * Flag(rightMarker) + 0x20 * Flag(intersection)
           + 0x40 * Flag(fork) + 0x80 * Flag(merge) + Flag(fault))
  }

  // ------------------------------------------------------------------ TPDO1

  function DecodeTpdo1(data: seq<byte>, canId: nat): Result<TrackFrame, WrongLength> {
    if |data| != 5 then Err(WrongLength(canId, 5, |data|)) else
      var status := data[4];
      Ok(TrackFrame(Signed8(data[0]), Signed8(data[1]), Signed8(data[2]), Signed8(data[3]),
                    status / 2 % 4, Bit(status, 0x08), Bit(status, 0x10), Bit(status, 0x20),
                    Bit(status, 0x40), Bit(status, 0x80), Bit(status, 0x01), status))
  }

  predicate FitsInt8(v: int) { -128 <= v < 128 }

  /** None where the source raises (strength out of range, or a field that does not fit an int8). */
  function EncodeTpdo1(leftPosition: int, rightPosition: int, leftAngle: int, rightAngle: int,
                       strength: int, leftMarker: bool, rightMarker: bool,
                       intersection: bool, fork: bool, merge: bool, fault: bool): Option<seq<byte>>
  {
    var status := EncodeStatus(strength, leftMarker, rightMarker, intersection, fork, merge, fault);
    if status.None? || !FitsInt8(leftPosition) || !FitsInt8(rightPosition)
       || !FitsInt8(leftAngle) || !FitsInt8(rightAngle) then None
    else Some([leftPosition % 256, rightPosition % 256, leftAngle % 256, rightAngle % 256, status.value])
  }

  /** Encoding then decoding gives every field back; it fails exactly on out-of-range fields. */
  lemma Tpdo1DecodeAfterEncode(lp: int, rp: int, la: int, ra: int, strength: int, lm: bool, rm: bool,
                               intersection: bool, fork: bool, merge: bool, fault: bool, canId: nat)
    ensures EncodeTpdo1(lp, rp, la, ra, strength, lm, rm, intersection, fork, merge, fault).Some?
       <==> FitsInt8(lp) && FitsInt8(rp) && FitsInt8(la) && FitsInt8(ra) && 0 <= strength <= 3
    ensures (var e := EncodeTpdo1(lp, rp, la, ra, strength, lm, rm, intersection, fork, merge, fault);
             e.Some? ==>
               DecodeTpdo1(e.value, canId) == Ok(TrackFrame(
                 lp, rp, la, ra, strength, lm, rm, intersection, fork, merge, fault, e.value[4])))
  {
    if 0 <= strength <= 3 {
      StatusFromBits(strength, lm, rm, intersection, fork, merge, fault);
    }
    Int8RoundTrip(lp);
    Int8RoundTrip(rp);
    Int8RoundTrip(la);
    Int8RoundTrip(ra);
  }

  /** Decoding then encoding reproduces every 5-byte payload. */
  lemma Tpdo1EncodeAfterDecode(data: seq<byte>, canId: nat)
    requires |data| == 5
    ensures var t := DecodeTpdo1(data, canId).value;
            EncodeTpdo1(t.leftPosition, t.rightPosition, t.leftAngle, t.rightAngle, t.strength,
                        t.leftMarker, t.rightMarker, t.intersection, t.fork, t.merge, t.fault) == Some(data)
  {
    StatusBits(data[4]);
    Signed8Byte(data[0]);
    Signed8Byte(data[1]);
    Signed8Byte(data[2]);
    Signed8Byte(data[3]);
    assert data == [data[0], data[1], data[2], data[3], data[4]];
  }

  lemma Signed8Byte(b: byte)
    ensures FitsInt8(Signed8(b)) && Signed8(b) % 256 == b
  {
  }

  lemma Int8RoundTrip(v: int)
    ensures FitsInt8(v) ==> 0 <= v % 256 < 256 && Signed8(v % 256) == v
  {
  }

  lemma StatusFromBits(strength: int, lm: bool, rm: bool, intersection: bool, fork: bool, merge: bool, fault: bool)
    requires 0 <= strength <= 3
    ensures (var s := EncodeStatus(strength, lm, rm, intersection, fork, merge, fault).value;
             s / 2 % 4 == strength && Bit(s, 0x08) == lm && Bit(s, 0x10) == rm && Bit(s, 0x20) == intersection
             && Bit(s, 0x40) == fork && Bit(s, 0x80) == merge && Bit(s, 0x01) == fault)
  {
    HighStatusBits(strength, lm, rm, intersection, fork, merge, fault);
    LowStatusBits(strength, lm, rm, intersection, fork, merge, fault);
  }

  lemma HighStatusBits(strength: int, lm: bool, rm: bool, intersection: bool, fork: bool, merge: bool, fault: bool)
    requires 0 <= strength <= 3
    ensures (var s := EncodeStatus(strength, lm, rm, intersection, fork, merge, fault).value;
             Bit(s, 0x20) == intersection && Bit(s, 0x40) == fork && Bit(s, 0x80) == merge)
  {
    var s := EncodeStatus(strength, lm, rm, intersection, fork, merge, fault).value;
    var q40 := Flag(fork) + 2 * Flag(merge);
    BitIs(s, 0x80, merge, 0);
    BitIs(s, 0x40, fork, Flag(merge));
    BitIs(s, 0x20, intersection, q40);
  }

  lemma LowStatusBits(strength: int, lm: bool, rm: bool, intersection: bool, fork: bool, merge: bool, fault: bool)
    requires 0 <= strength <= 3
    ensures (var s := EncodeStatus(strength, lm, rm, intersection, fork, merge, fault).value;
             s / 2 % 4 == strength && Bit(s, 0x08) == lm && Bit(s, 0x10) == rm && Bit(s, 0x01) == fault)
  {
    var s := EncodeStatus(strength, lm, rm, intersection, fork, merge, fault).value;
    var above := Flag(intersection) + 2 * Flag(fork) + 4 * Flag(merge);
    BottomBits(s, fault, strength, lm, rm, above);
  }

  lemma BottomBits(s: byte, fault: bool, strength: int, lm: bool, rm: bool, above: int)
    requires 0 <= strength <= 3
    requires s == Flag(fault) + 2 * strength + 0x08 * Flag(lm) + 0x10 * Flag(rm) + 0x20 * above
    ensures s / 2 % 4 == strength && Bit(s, 0x08) == lm && Bit(s, 0x10) == rm && Bit(s, 0x01) == fault
  {
    var q08 := Flag(lm) + 2 * Flag(rm) + 4 * above;
    BitIs(s, 0x10, rm, above);
    BitIs(s, 0x08, lm, Flag(rm) + 2 * above);
    BitIs(s, 0x01, fault, strength + 4 * q08);
    StrengthIs(s, strength, q08, Flag(fault));
  }

  /** Reading one bit: what lies above it is a multiple of two, what lies below is less than its weight. */
  lemma BitIs(s: byte, w: int, b: bool, above: int)
    requires w in {0x01, 0x08, 0x10, 0x20, 0x40, 0x80}
    requires 0 <= s - w * (Flag(b) + 2 * above) < w
    ensures Bit(s, w) == b
  {
    assert w == 0x01 || w == 0x08 || w == 0x10 || w == 0x20 || w == 0x40 || w == 0x80;
    assert s / w == Flag(b) + 2 * above;
  }

  lemma StrengthIs(s: byte, strength: int, above: int, below: int)
    requires s == below + 2 * (strength + 4 * above) && 0 <= strength < 4 && 0 <= below < 2
    ensures s / 2 % 4 == strength
  {
    assert s / 2 == strength + 4 * above;
  }

  lemma StatusBits(s: byte)
    ensures s == s / 2 % 4 * 2 + 0x08 * Flag(Bit(s, 0x08)) + 0x10 * Flag(Bit(s, 0x10)) + 0x20 * Flag(Bit(s, 0x20))
                 + 0x40 * Flag(Bit(s, 0x40)) + 0x80 * Flag(Bit(s, 0x80)) + Flag(Bit(s, 0x01))
  {
    TopBits(s);
    assert s / 2 == s / 2 % 4 + 4 * (s / 0x08);
    assert s == 2 * (s / 2) + Flag(Bit(s, 0x01));
  }

  lemma TopBits(s: byte)
    ensures s / 0x08 == Flag(Bit(s, 0x08)) + 2 * Flag(Bit(s, 0x10)) + 4 * Flag(Bit(s, 0x20))
                        + 8 * Flag(Bit(s, 0x40)) + 16 * Flag(Bit(s, 0x80))
  {
    Halve(s / 0x08);
    Halve(s / 0x10);
    Halve(s / 0x20);
    Halve(s / 0x40);
    Halve(s / 0x80);
    assert s / 0x10 == s / 0x08 / 2 && s / 0x20 == s / 0x10 / 2 && s / 0x40 == s / 0x20 / 2 && s / 0x80 == s / 0x40 / 2;
    assert s / 0x80 / 2 == 0;
  }

  lemma Halve(n: nat)
    ensures n == (if n % 2 == 1 then 1 else 0) + 2 * (n / 2)
  {
  }

  // ------------------------------------------------- TPDO2, TPDO3, heartbeat

  function DecodeTpdo2(data: seq<byte>, canId: nat): Result<MarkerFrame, WrongLength> {
    if |data| != 8 then Err(WrongLength(canId, 8, |data|)) else
      Ok(MarkerFrame(Signed16(U16(data[0], data[1])), Signed16(U16(data[2], data[3])),
                     Signed16(U16(data[4], data[5])), Signed16(U16(data[6], data[7]))))
  }

  predicate FitsInt16(v: int) { -0x8000 <= v < 0x8000 }

  function EncodeTpdo2(m: MarkerFrame): Option<seq<byte>> {
    if FitsInt16(m.leftX) && FitsInt16(m.leftY) && FitsInt16(m.rightX) && FitsInt16(m.rightY) then
      Some(Pack16(m.leftX) + Pack16(m.leftY) + Pack16(m.rightX) + Pack16(m.rightY))
    else
      None
  }

  function DecodeTpdo3(data: seq<byte>, canId: nat): Result<NavicodeFrame, WrongLength> {
    if |data| != 3 then Err(WrongLength(canId, 3, |data|)) else
      Ok(NavicodeFrame(U16(data[0], data[1]), data[2]))
  }

  /** Code and counter are masked, so this encoder never fails. */
  function EncodeTpdo3(code: int, counter: int): seq<byte> {
    Pack16(code) + [counter % 256]
  }

  function DecodeHeartbeat(data: seq<byte>, canId: nat): Result<byte, WrongLength> {
    if |data| != 1 then Err(WrongLength(canId, 1, |data|)) else Ok(data[0])
  }

  function EncodeHeartbeat(state: int): seq<byte> { [state % 256] }

  lemma Tpdo2RoundTrips(m: MarkerFrame, data: seq<byte>, canId: nat)
    ensures EncodeTpdo2(m).Some?
       <==> FitsInt16(m.leftX) && FitsInt16(m.leftY) && FitsInt16(m.rightX) && FitsInt16(m.rightY)
    ensures EncodeTpdo2(m).Some? ==> DecodeTpdo2(EncodeTpdo2(m).value, canId) == Ok(m)
    ensures |data| == 8 ==> EncodeTpdo2(DecodeTpdo2(data, canId).value) == Some(data)
  {
    Int16RoundTrip(m.leftX);
    Int16RoundTrip(m.leftY);
    Int16RoundTrip(m.rightX);
    Int16RoundTrip(m.rightY);
    if |data| == 8 {
      var e := EncodeTpdo2(DecodeTpdo2(data, canId).value);
      Int16Bytes(data[0], data[1]);
      Int16Bytes(data[2], data[3]);
      Int16Bytes(data[4], data[5]);
      Int16Bytes(data[6], data[7]);
      assert e == Some([data[0], data[1]] + [data[2], data[3]] + [data[4], data[5]] + [data[6], data[7]]);
      assert data == [data[0], data[1]] + [data[2], data[3]] + [data[4], data[5]] + [data[6], data[7]];
    }
  }

  lemma Int16RoundTrip(v: int)
    ensures FitsInt16(v) ==> Signed16(U16(Pack16(v)[0], Pack16(v)[1])) == v
  {
    Unpack16(v);
  }

  lemma Int16Bytes(lo: byte, hi: byte)
    ensures Pack16(Signed16(U16(lo, hi))) == [lo, hi] && FitsInt16(Signed16(U16(lo, hi)))
  {
    var v := Signed16(U16(lo, hi));
    var carry := if v < 0 then hi - 256 else hi;
    assert v == 256 * carry + lo;
    assert v / 256 == carry && v % 256 == lo;
  }

  lemma Tpdo3RoundTrips(code: int, counter: int, data: seq<byte>, canId: nat)
    ensures DecodeTpdo3(EncodeTpdo3(code, counter), canId)
         == Ok(NavicodeFrame(code % 0x1_0000, counter % 256))
    ensures |data| == 3 ==>
              var n := DecodeTpdo3(data, canId).value; EncodeTpdo3(n.code, n.counter) == data
  {
    Unpack16(code);
    if |data| == 3 {
      PackU16(data[0], data[1]);
      assert data == [data[0], data[1]] + [data[2]];
    }
  }

  lemma PackU16(lo: byte, hi: byte)
    ensures Pack16(U16(lo, hi)) == [lo, hi]
  {
    assert U16(lo, hi) / 256 == hi && U16(lo, hi) % 256 == lo;
  }

  lemma HeartbeatRoundTrips(state: int, data: seq<byte>, canId: nat)
    ensures DecodeHeartbeat(EncodeHeartbeat(state), canId) == Ok(state % 256)
    ensures |data| == 1 ==> EncodeHeartbeat(DecodeHeartbeat(data, canId).value) == data
  {
  }

  // --------------------------------------------------------------- dispatch

  /** Ok(None) for other nodes, SDO traffic and unknown function codes. */
  function DecodeFrame(canId: nat, data: seq<byte>, nodeId: nat): Result<Option<Decoded>, WrongLength> {
    if !IsNodeFrame(canId, nodeId) then Ok(None) else
      var fc := FunctionCode(canId);
      if fc == FC_TPDO1 then
        match DecodeTpdo1(data, canId) { case Ok(t) => Ok(Some(Track(t))) case Err(e) => Err(e) }
      else if fc == FC_TPDO2 then
        match DecodeTpdo2(data, canId) { case Ok(m) => Ok(Some(Marker(m))) case Err(e) => Err(e) }
      else if fc == FC_TPDO3 then
        match DecodeTpdo3(data, canId) { case Ok(n) => Ok(Some(Navicode(n))) case Err(e) => Err(e) }
      else if fc == FC_HEARTBEAT then
        match DecodeHeartbeat(data, canId) { case Ok(s) => Ok(Some(Heartbeat(s))) case Err(e) => Err(e) }
      else
        Ok(None)
  }

  // ------------------------------------------------------ what the bytes say

  ghost predicate IsInt8(v: int, b: byte) { v == (if b < 128 then b else b - 256) }

  ghost predicate IsInt16(v: int, lo: byte, hi: byte) {
    var raw := lo as int + 256 * hi as int;
    v == if raw < 32768 then raw else raw - 65536
  }

  /** Left and right position, left and right angle, and a status byte that is
      merge fork intersection rightMarker leftMarker strength:2 fault, from the highest bit down. */
  ghost predicate TrackBytes(t: TrackFrame, data: seq<byte>) {
    && |data| == 5
    && IsInt8(t.leftPosition, data[0]) && IsInt8(t.rightPosition, data[1])
    && IsInt8(t.leftAngle, data[2]) && IsInt8(t.rightAngle, data[3])
    && 0 <= t.strength <= 3 && t.status == data[4]
    && data[4] as int == (if t.fault then 1 else 0) + 2 * t.strength + (if t.leftMarker then 8 else 0)
                         + (if t.rightMarker then 16 else 0) + (if t.intersection then 32 else 0)
                         + (if t.fork then 64 else 0) + (if t.merge then 128 else 0)
  }

  ghost predicate MarkerBytes(m: MarkerFrame, data: seq<byte>) {
    && |data| == 8
    && IsInt16(m.leftX, data[0], data[1]) && IsInt16(m.leftY, data[2], data[3])
    && IsInt16(m.rightX, data[4], data[5]) && IsInt16(m.rightY, data[6], data[7])
  }

  ghost predicate NavicodeBytes(n: NavicodeFrame, data: seq<byte>) {
    |data| == 3 && n.code == data[0] as int + 256 * data[1] as int && n.counter == data[2]
  }

  /** The frame carries this value, by its identifier and its bytes. */
  ghost predicate Carries(canId: nat, data: seq<byte>, nodeId: nat, value: Decoded) {
    match value
    case Track(t) => canId == 0x180 + nodeId && TrackBytes(t, data)
    case Marker(m) => canId == 0x280 + nodeId && MarkerBytes(m, data)
    case Navicode(n) => canId == 0x380 + nodeId && NavicodeBytes(n, data)
    case Heartbeat(state) => canId == 0x700 + nodeId && data == [state]
  }

  /** The length the sensor's process data and heartbeat have; 0 for other identifiers. */
  function LengthFor(canId: nat, nodeId: nat): nat {
    if canId == 0x180 + nodeId then 5
    else if canId == 0x280 + nodeId then 8
    else if canId == 0x380 + nodeId then 3
    else if canId == 0x700 + nodeId then 1
    else 0
  }

  /** Decoding by identifier, in full: which frames fail, which say nothing, and what the others say. */
  lemma DecodeFrameMeaning(canId: nat, data: seq<byte>, nodeId: nat)
    requires ValidNodeId(nodeId)
    ensures (var r := DecodeFrame(canId, data, nodeId);
             var expected := LengthFor(canId, nodeId);
             && (r.Err? <==> expected != 0 && |data| != expected)
             && (r.Err? ==> r.error == WrongLength(canId, expected, |data|))
             && (r == Ok(None) <==> expected == 0)
             && (r.Ok? && r.value.Some? ==> Carries(canId, data, nodeId, r.value.value)))
  {
    FunctionCodeOf(canId, nodeId);
    if |data| == 5 {
      StatusBits(data[4]);
    }
    if |data| == 1 {
      assert data == [data[0]];
    }
  }

  /** For a node's own identifiers the function code is what is left of the node id. */
  lemma FunctionCodeOf(canId: nat, nodeId: nat)
    requires ValidNodeId(nodeId)
    ensures IsNodeFrame(canId, nodeId) ==> canId == FunctionCode(canId) + nodeId
    ensures canId in {0x180 + nodeId, 0x280 + nodeId, 0x380 + nodeId, 0x580 + nodeId, 0x700 + nodeId} ==>
              IsNodeFrame(canId, nodeId)
  {
  }

  function CounterAdvanced(previous: Option<int>, current: int): bool {
    previous.Some? && current % 256 != previous.value % 256
  }

  // ------------------------------------------------------------- inversions

  function ApplyInversions(t: TrackFrame, invertPosition: bool, invertAngle: bool): TrackFrame {
    if !(invertPosition || invertAngle) then t else
      var sp := if invertPosition then -1 else 1;
      var sa := if invertAngle then -1 else 1;
      t.(leftPosition := sp * t.leftPosition, rightPosition := sp * t.rightPosition,
         leftAngle := sa * t.leftAngle, rightAngle := sa * t.rightAngle)
  }

  lemma InversionsInvolutive(t: TrackFrame, p: bool, a: bool)
    ensures ApplyInversions(ApplyInversions(t, p, a), p, a) == t
    ensures ApplyInversions(t, p, a).SingleTrack() == t.SingleTrack()
    ensures ApplyInversions(t, p, a).TapeDetected() == t.TapeDetected()
  {
  }
}
