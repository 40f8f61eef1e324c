/** The object-dictionary server simulated by `FakeBus` in
    naviq_mts160/test/test_sdo.py, the peer of the SDO protocol. */
module SdoServer {
  import opened Bytes
  import opened SdoCodec

  const ABORT_WRITE_ONLY := 0x0601_0001
  const ABORT_READ_ONLY := 0x0601_0002
  const ABORT_UNKNOWN_OBJECT := 0x0602_0000

  type Dictionary = map<Key, seq<byte>>

  datatype Write = Write(key: Key, data: seq<byte>)

  datatype Server = Server(od: Dictionary, readOnly: set<Key>, writeOnly: set<Key>, writes: seq<Write>)
  {
    predicate Accepts(key: Key) {
      key !in readOnly && (key in writeOnly || key in od)
    }

    /** The server after one request, and its reply; None where the simulator raises. */
    function Serve(request: seq<byte>): (Server, Option<seq<byte>>) {
      match ParseRequest(request)
      case Err(_) => (this, None)
      case Ok(m) =>
        if m.Upload? then
          (this,
           if m.key in writeOnly then Some(BuildAbort(m.key, ABORT_WRITE_ONLY))
           else if m.key in od then BuildUploadResponse(m.key, od[m.key])
           else Some(BuildAbort(m.key, ABORT_UNKNOWN_OBJECT)))
        else if m.key in readOnly then (this, Some(BuildAbort(m.key, ABORT_READ_ONLY)))
        else if m.key in writeOnly || m.key in od then
          // the simulator treats every request that is not an upload as a write
          var payload := Payload(m);
          (this.(od := if m.key in od then od[m.key := payload] else od,
                 writes := writes + [Write(m.key, payload)]),
           Some(BuildDownloadResponse(m.key)))
        else (this, Some(BuildAbort(m.key, ABORT_UNKNOWN_OBJECT)))
    }
  }

  function Payload(request: Message): seq<byte> {
    if request.Download? then request.data else []
  }

  /** What a reply says about the request it answers: an acknowledge means exactly
      one write of the request's payload, an upload response carries the
      dictionary's value, and everything else leaves the server alone. */
  ghost predicate Answers(s: Server, q: Message, t: Server, r: Message) {
    && r.key == q.key
    && match r
       case Download(_, _) => !q.Upload? && s.Accepts(q.key) && t.writes == s.writes + [Write(q.key, Payload(q))]
       case Upload(_, data) => q.Upload? && q.key in s.od && data == s.od[q.key] && t == s
       case Abort(_, _) => t == s
  }

  lemma ReplyMeaning(s: Server, request: seq<byte>)
    requires s.Serve(request).1.Some?
    ensures ParseRequest(request).Ok? && ParseResponse(s.Serve(request).1.value).Ok?
    ensures Answers(s, ParseRequest(request).value, s.Serve(request).0,
                    ParseResponse(s.Serve(request).1.value).value)
  {
    ParsedRequestShape(request);
    var q := ParseRequest(request).value;
    ParseResponseInverts(q.key, if q.key in s.od then s.od[q.key] else [], ABORT_WRITE_ONLY);
    AbortParses(q.key, ABORT_READ_ONLY);
    AbortParses(q.key, ABORT_UNKNOWN_OBJECT);
  }

  /** The reply is this abort. */
  ghost predicate RefusedWith(reply: Option<seq<byte>>, key: Key, code: nat) {
    reply.Some? && ParseResponse(reply.value) == Ok(Abort(key, code))
  }

  /** All the server does, request by request. */
  lemma ServeExactly(s: Server, request: seq<byte>)
    ensures (var (t, reply) := s.Serve(request);
             && (ParseRequest(request).Err? ==> t == s && reply.None?)
             && (ParseRequest(request).Ok? ==> ServesAs(s, ParseRequest(request).value, t, reply)))
  {
    if ParseRequest(request).Ok? {
      ParsedRequestShape(request);
      var key := ParseRequest(request).value.key;
      ParseResponseInverts(key, if key in s.od then s.od[key] else [], 0);
      AbortParses(key, ABORT_WRITE_ONLY);
      AbortParses(key, ABORT_READ_ONLY);
      AbortParses(key, ABORT_UNKNOWN_OBJECT);
    }
  }

  ghost predicate ServesAs(s: Server, q: Message, t: Server, reply: Option<seq<byte>>) {
    if q.Upload? then
      && t == s
      && (if q.key in s.writeOnly then RefusedWith(reply, q.key, 0x0601_0001)
          else if q.key !in s.od then RefusedWith(reply, q.key, 0x0602_0000)
          else if 1 <= |s.od[q.key]| <= 4 then
            reply.Some? && ParseResponse(reply.value) == Ok(Upload(q.key, s.od[q.key]))
          else reply.None?)
    else if q.key in s.readOnly then t == s && RefusedWith(reply, q.key, 0x0601_0002)
    else if q.key !in s.writeOnly && q.key !in s.od then t == s && RefusedWith(reply, q.key, 0x0602_0000)
    else
      var payload := if q.Download? then q.data else [];
      && reply.Some? && ParseResponse(reply.value) == Ok(Download(q.key, []))
      && t.writes == s.writes + [Write(q.key, payload)]
      && t.od == (if q.key in s.od then s.od[q.key := payload] else s.od)
      && t.readOnly == s.readOnly && t.writeOnly == s.writeOnly
  }

  lemma ServeKeepsObjects(s: Server, request: seq<byte>)
    ensures (var t := s.Serve(request).0;
             t.od.Keys == s.od.Keys && t.readOnly == s.readOnly && t.writeOnly == s.writeOnly
             && s.writes <= t.writes)
  {
  }

  /** A value written to a stored object and read back comes out unchanged. */
  lemma WriteThenRead(s: Server, key: Key, data: seq<byte>)
    requires key.InRange() && 1 <= |data| <= 4
    requires key in s.od && key !in s.readOnly && key !in s.writeOnly
    ensures (var (t, ack) := s.Serve(BuildDownload(key, data).value);
             var (u, answer) := t.Serve(BuildUpload(key));
             ack.Some? && answer.Some? && u == t
             && ParseResponse(ack.value) == Ok(Download(key, []))
             && ParseResponse(answer.value) == Ok(Upload(key, data)))
  {
    ParseRequestInverts(key, data);
    ParseResponseInverts(key, data, 0);
  }

  /** write_uN then read_uN gives the value mod 2^N. */
  lemma TypedWriteThenRead(s: Server, key: Key, value: int)
    requires key.InRange() && key in s.od && key !in s.readOnly && key !in s.writeOnly
    ensures ReadU8(ReadBack(s, key, WriteU8(value))) == value % 0x100
    ensures ReadU16(ReadBack(s, key, WriteU16(value))) == value % 0x1_0000
    ensures ReadU32(ReadBack(s, key, WriteU32(value))) == value % 0x1_0000_0000
  {
    TypedValuesRoundTrip(value);
  }

  /** The payload a download followed by an upload yields. */
  ghost function ReadBack(s: Server, key: Key, data: seq<byte>): (r: seq<byte>)
    requires key.InRange() && 1 <= |data| <= 4
    requires key in s.od && key !in s.readOnly && key !in s.writeOnly
    ensures r == data
  {
    WriteThenRead(s, key, data);
    ParseResponse(s.Serve(BuildDownload(key, data).value).0.Serve(BuildUpload(key)).1.value).value.data
  }

  /** The simulator itself: `send` logs the frame, serves it, and hands the reply to the listeners. */
  class FakeBus {
    const nodeId: nat
    const answer: bool
    const readOnly: set<Key>
    const writeOnly: set<Key>
    var od: Dictionary
    var writes: seq<Write>
    var sent: seq<(nat, seq<byte>)>
    var delivered: seq<seq<byte>>

    ghost function View(): Server
      reads this
    {
      Server(od, readOnly, writeOnly, writes)
    }

    constructor (nodeId: nat, answer: bool, od: Dictionary, readOnly: set<Key>, writeOnly: set<Key>)
      ensures this.nodeId == nodeId && this.answer == answer
      ensures View() == Server(od, readOnly, writeOnly, [])
      ensures sent == [] && delivered == []
    {
      this.nodeId, this.answer := nodeId, answer;
      this.od, this.readOnly, this.writeOnly := od, readOnly, writeOnly;
      writes, sent, delivered := [], [], [];
    }

    /** Raises on a request it cannot parse and on a stored value that no expedited response can carry. */
    method Send(canId: nat, data: seq<byte>) returns (raised: bool)
      requires canId == 0x600 + nodeId
      modifies this
      ensures sent == old(sent) + [(canId, data)]
      ensures raised <==> answer && old(View()).Serve(data).1.None?
      ensures !answer ==> View() == old(View()) && delivered == old(delivered)
      ensures answer ==>
                View() == old(View()).Serve(data).0
                && delivered == old(delivered)
                   + (match old(View()).Serve(data).1 { case Some(reply) => [reply] case None => [] })
    {
      sent := sent + [(canId, data)];
      if !answer {
        return false;
      }
      var parsed := ParseRequest(data);
      if parsed.Err? {
        return true;
      }
      var key := parsed.value.key;
      var reply: Option<seq<byte>>;
      if parsed.value.Upload? {
        if key in writeOnly {
          reply := Some(BuildAbort(key, ABORT_WRITE_ONLY));
        } else if key in od {
          reply := BuildUploadResponse(key, od[key]);
        } else {
          reply := Some(BuildAbort(key, ABORT_UNKNOWN_OBJECT));
        }
      } else if key in readOnly {
        reply := Some(BuildAbort(key, ABORT_READ_ONLY));
      } else if key in writeOnly || key in od {
        var payload := if parsed.value.Download? then parsed.value.data else [];
        writes := writes + [Write(key, payload)];
        if key in od {
          od := od[key := payload];
        }
        reply := Some(BuildDownloadResponse(key));
      } else {
        reply := Some(BuildAbort(key, ABORT_UNKNOWN_OBJECT));
      }
      if reply.Some? {
        delivered := delivered + [reply.value];
      }
      raised := reply.None?;
    }
  }
}
