/** naviq_mts160/naviq_mts160/sdo.py, the pure half: expedited SDO frames of
    section 7.2.4.3 of CiA 301 and their parsers. */
module SdoCodec {
  import opened Bytes

  const CCS_DOWNLOAD_INIT := 0x20
  const CCS_UPLOAD_INIT := 0x40
  const SCS_UPLOAD_RESP := 0x40
  const SCS_DOWNLOAD_RESP := 0x60
  const CS_ABORT := 0x80

  /** An entry of the object dictionary: index and sub-index. */
  datatype Key = Key(index: int, sub: int)
  {
    predicate InRange() { 0 <= index < 0x1_0000 && 0 <= sub < 0x100 }
  }

  datatype Message =
    | Download(key: Key, data: seq<byte>)   // request with payload, or acknowledge with none
    | Upload(key: Key, data: seq<byte>)     // request with no payload, or response with one
    | Abort(key: Key, code: nat)

  datatype ProtocolError = ProtocolError

  type Parsed = Result<Message, ProtocolError>

  // --------------------------------------------------------------- builders

  function Header(cmd: byte, key: Key): seq<byte> {
    [cmd, key.index % 256, key.index / 256 % 256, key.sub % 256]
  }

  /** None is the source's ValueError: an expedited transfer carries 1..4 bytes. */
  function BuildExpedited(specifier: byte, key: Key, data: seq<byte>): (r: Option<seq<byte>>)
    requires specifier in {CCS_DOWNLOAD_INIT, SCS_UPLOAD_RESP}
    ensures r.Some? <==> 1 <= |data| <= 4
  {
    if !(1 <= |data| <= 4) then None else
      Some(Header(specifier + 4 * (4 - |data|) + 3, key) + data + Zeros(4 - |data|))
  }

  function BuildDownload(key: Key, data: seq<byte>): Option<seq<byte>> {
    BuildExpedited(CCS_DOWNLOAD_INIT, key, data)
  }

  function BuildUploadResponse(key: Key, data: seq<byte>): Option<seq<byte>> {
    BuildExpedited(SCS_UPLOAD_RESP, key, data)
  }

  function BuildUpload(key: Key): seq<byte> { Header(CCS_UPLOAD_INIT, key) + Zeros(4) }

  function BuildDownloadResponse(key: Key): seq<byte> { Header(SCS_DOWNLOAD_RESP, key) + Zeros(4) }

  /** The source packs the code as an unsigned 32-bit field. */
  function BuildAbort(key: Key, code: nat): seq<byte>
    requires code < 0x1_0000_0000
  {
    Header(CS_ABORT, key) + Pack32(code)
  }

  // ---------------------------------------------------------------- parsers

  function ParsedKey(data: seq<byte>): Key
    requires |data| == 8
  {
    Key(U16(data[1], data[2]), data[3])
  }

  /** Number of unused payload bytes an expedited command byte announces. */
  function Unused(cmd: byte): (n: nat)
    ensures n <= 3
  {
    if cmd % 2 == 1 then cmd / 4 % 4 else 0
  }

  predicate Expedited(cmd: byte) { cmd / 2 % 2 == 1 }

  function Specifier(cmd: byte): int { cmd / 32 * 32 }

  function ParseRequest(data: seq<byte>): Parsed {
    if |data| != 8 then Err(ProtocolError) else
      var cs := Specifier(data[0]);
      if cs == CCS_DOWNLOAD_INIT then
        if Expedited(data[0]) then Ok(Download(ParsedKey(data), data[4..8 - Unused(data[0])]))
        else Err(ProtocolError)
      else if cs == CCS_UPLOAD_INIT then Ok(Upload(ParsedKey(data), []))
      else if cs == CS_ABORT then Ok(Abort(ParsedKey(data), U32(data[4], data[5], data[6], data[7])))
      else Err(ProtocolError)
  }

  function ParseResponse(data: seq<byte>): Parsed {
    if |data| != 8 then Err(ProtocolError) else
      var cs := Specifier(data[0]);
      if cs == SCS_DOWNLOAD_RESP then Ok(Download(ParsedKey(data), []))
      else if cs == SCS_UPLOAD_RESP then
        if Expedited(data[0]) then Ok(Upload(ParsedKey(data), data[4..8 - Unused(data[0])]))
        else Err(ProtocolError)
      else if cs == CS_ABORT then Ok(Abort(ParsedKey(data), U32(data[4], data[5], data[6], data[7])))
      else Err(ProtocolError)
  }

  // --------------------------------------------------------- inverse lemmas

  lemma HeaderParses(frame: seq<byte>, cmd: byte, key: Key, rest: seq<byte>)
    requires key.InRange() && |rest| == 4 && frame == Header(cmd, key) + rest
    ensures |frame| == 8 && frame[0] == cmd && ParsedKey(frame) == key && frame[4..] == rest
  {
    IndexBytes(key.index);
    SubByte(key.sub);
    KeyParses(frame, cmd, Header(cmd, key), rest);
  }

  lemma KeyParses(frame: seq<byte>, cmd: byte, header: seq<byte>, rest: seq<byte>)
    requires |header| == 4 && header[0] == cmd && |rest| == 4 && frame == header + rest
    ensures |frame| == 8 && frame[0] == cmd && frame[4..] == rest
    ensures ParsedKey(frame) == Key(U16(header[1], header[2]), header[3])
  {
    assert frame[0] == header[0] && frame[1] == header[1] && frame[2] == header[2] && frame[3] == header[3];
  }

  lemma IndexBytes(index: int)
    requires 0 <= index < 0x1_0000
    ensures U16(index % 256, index / 256 % 256) == index
  {
    assert index == 256 * (index / 256) + index % 256;
    assert index / 256 % 256 == index / 256;
  }

  lemma SubByte(sub: int)
    requires 0 <= sub < 0x100
    ensures sub % 256 == sub
  {
  }

  lemma ExpeditedCommand(specifier: byte, n: nat)
    requires specifier in {CCS_DOWNLOAD_INIT, SCS_UPLOAD_RESP} && 1 <= n <= 4
    ensures (var cmd := specifier + 4 * (4 - n) + 3;
             0 <= cmd < 256 && Specifier(cmd) == specifier && Expedited(cmd) && Unused(cmd) == 4 - n)
  {
    assert n == 1 || n == 2 || n == 3 || n == 4;
  }

  lemma ExpeditedParses(specifier: byte, key: Key, data: seq<byte>)
    requires specifier in {CCS_DOWNLOAD_INIT, SCS_UPLOAD_RESP} && key.InRange() && 1 <= |data| <= 4
    ensures (var f := BuildExpedited(specifier, key, data).value;
             |f| == 8 && ParsedKey(f) == key && Specifier(f[0]) == specifier && Expedited(f[0])
             && f[4..8 - Unused(f[0])] == data)
  {
    var f := BuildExpedited(specifier, key, data).value;
    var cmd := specifier + 4 * (4 - |data|) + 3;
    ExpeditedCommand(specifier, |data|);
    var rest := data + Zeros(4 - |data|);
    assert f == Header(cmd, key) + rest;
    HeaderParses(f, cmd, key, rest);
    assert f[4..4 + |data|] == f[4..][..|data|] == data;
  }

  /** `parse_request` undoes the client's builders, for every 16-bit index and 8-bit sub-index. */
  lemma ParseRequestInverts(key: Key, data: seq<byte>)
    requires key.InRange()
    ensures BuildDownload(key, data).Some? <==> 1 <= |data| <= 4
    ensures BuildDownload(key, data).Some? ==>
              ParseRequest(BuildDownload(key, data).value) == Ok(Download(key, data))
    ensures ParseRequest(BuildUpload(key)) == Ok(Upload(key, []))
  {
    if 1 <= |data| <= 4 {
      ExpeditedParses(CCS_DOWNLOAD_INIT, key, data);
    }
    HeaderParses(BuildUpload(key), CCS_UPLOAD_INIT, key, Zeros(4));
  }

  /** `parse_response` undoes the server's builders, aborts with any 32-bit code included. */
  lemma ParseResponseInverts(key: Key, data: seq<byte>, code: nat)
    requires key.InRange() && code < 0x1_0000_0000
    ensures BuildUploadResponse(key, data).Some? ==>
              ParseResponse(BuildUploadResponse(key, data).value) == Ok(Upload(key, data))
    ensures ParseResponse(BuildDownloadResponse(key)) == Ok(Download(key, []))
    ensures ParseResponse(BuildAbort(key, code)) == Ok(Abort(key, code))
    ensures ParseRequest(BuildAbort(key, code)) == Ok(Abort(key, code))
  {
    if 1 <= |data| <= 4 {
      ExpeditedParses(SCS_UPLOAD_RESP, key, data);
    }
    HeaderParses(BuildDownloadResponse(key), SCS_DOWNLOAD_RESP, key, Zeros(4));
    AbortParses(key, code);
  }

  lemma AbortParses(key: Key, code: nat)
    requires key.InRange() && code < 0x1_0000_0000
    ensures ParseResponse(BuildAbort(key, code)) == Ok(Abort(key, code)) == ParseRequest(BuildAbort(key, code))
  {
    PackedCode(code);
    AbortFieldParses(key, Pack32(code), code);
  }

  lemma PackedCode(code: nat)
    requires code < 0x1_0000_0000
    ensures (var p := Pack32(code); U32(p[0], p[1], p[2], p[3]) == code)
  {
    var p := Pack32(code);
    Unpack32(code);
    SmallModulo(U32(p[0], p[1], p[2], p[3]), code);
  }

  lemma SmallModulo(v: int, code: nat)
    requires code < 0x1_0000_0000 && v == code % 0x1_0000_0000
    ensures v == code
  {
  }

  lemma AbortFieldParses(key: Key, field: seq<byte>, code: nat)
    requires key.InRange() && |field| == 4 && U32(field[0], field[1], field[2], field[3]) == code
    ensures (var f := Header(CS_ABORT, key) + field; ParseResponse(f) == Ok(Abort(key, code)) == ParseRequest(f))
  {
    var f := Header(CS_ABORT, key) + field;
    HeaderParses(f, CS_ABORT, key, field);
    assert f[4] == field[0] && f[5] == field[1] && f[6] == field[2] && f[7] == field[3];
  }

  /** Whatever bytes arrive: a parsed key is in range, an upload response carries
      1..4 bytes, and an acknowledge carries none. */
  lemma ParsedResponseShape(data: seq<byte>)
    ensures ParseResponse(data).Ok? ==> |data| == 8 && ParseResponse(data).value.key.InRange()
    ensures ParseResponse(data).Ok? && ParseResponse(data).value.Upload? ==>
              1 <= |ParseResponse(data).value.data| <= 4
    ensures ParseResponse(data).Ok? && ParseResponse(data).value.Download? ==>
              ParseResponse(data).value.data == []
  {
  }

  lemma ParsedRequestShape(data: seq<byte>)
    ensures ParseRequest(data).Ok? ==> |data| == 8 && ParseRequest(data).value.key.InRange()
    ensures ParseRequest(data).Ok? && ParseRequest(data).value.Download? ==>
              1 <= |ParseRequest(data).value.data| <= 4
  {
  }

  // ------------------------------------------------------- the bytes themselves

  /** Every response frame there is, byte by byte: an acknowledge is 0x60..0x7F, an expedited upload
      0x40..0x5F with its second bit set, an abort 0x80..0x9F; everything else is an error. */
  lemma ParseResponseBytes(f: seq<byte>)
    requires |f| == 8
    ensures (var key := Key(f[1] as int + 0x100 * f[2] as int, f[3]);
             && (0x60 <= f[0] < 0x80 ==> ParseResponse(f) == Ok(Download(key, [])))
             && (0x80 <= f[0] < 0xA0 ==> ParseResponse(f) == Ok(Abort(key, LittleEndian(f[4..]))))
             && (0x40 <= f[0] < 0x60 && f[0] % 4 == 3 ==>
                   ParseResponse(f) == Ok(Upload(key, f[4..8 - f[0] / 4 % 4])))
             && (0x40 <= f[0] < 0x60 && f[0] % 4 == 2 ==> ParseResponse(f) == Ok(Upload(key, f[4..])))
             && (f[0] < 0x40 || f[0] >= 0xA0 || (f[0] < 0x60 && f[0] % 4 < 2) ==> ParseResponse(f).Err?))
  {
    assert f[4..8] == f[4..];
  }

  /** Every request frame there is: a download 0x20..0x3F with its second bit set, an upload
      0x40..0x5F, an abort 0x80..0x9F; everything else is an error. */
  lemma ParseRequestBytes(f: seq<byte>)
    requires |f| == 8
    ensures (var key := Key(f[1] as int + 0x100 * f[2] as int, f[3]);
             && (0x40 <= f[0] < 0x60 ==> ParseRequest(f) == Ok(Upload(key, [])))
             && (0x80 <= f[0] < 0xA0 ==> ParseRequest(f) == Ok(Abort(key, LittleEndian(f[4..]))))
             && (0x20 <= f[0] < 0x40 && f[0] % 4 == 3 ==>
                   ParseRequest(f) == Ok(Download(key, f[4..8 - f[0] / 4 % 4])))
             && (0x20 <= f[0] < 0x40 && f[0] % 4 == 2 ==> ParseRequest(f) == Ok(Download(key, f[4..])))
             && (f[0] < 0x20 || f[0] >= 0xA0 || 0x60 <= f[0] < 0x80 || (f[0] < 0x40 && f[0] % 4 < 2) ==>
                   ParseRequest(f).Err?))
  {
    assert f[4..8] == f[4..];
  }

  lemma OtherLengthsFail(f: seq<byte>)
    requires |f| != 8
    ensures ParseResponse(f).Err? && ParseRequest(f).Err?
  {
  }

  /** An unsigned 32-bit field, least significant byte first. */
  function LittleEndian(b: seq<byte>): nat
    requires |b| == 4
  {
    b[0] as int + 0x100 * b[1] as int + 0x1_0000 * b[2] as int + 0x100_0000 * b[3] as int
  }

  /** What goes on the wire for every 16-bit index and 8-bit sub-index. */
  lemma BuiltBytes(i: int, sub: int, data: seq<byte>)
    requires 0 <= i < 0x1_0000 && 0 <= sub < 0x100
    ensures BuildUpload(Key(i, sub)) == [0x40, i % 256, i / 256, sub, 0, 0, 0, 0]
    ensures BuildDownloadResponse(Key(i, sub)) == [0x60, i % 256, i / 256, sub, 0, 0, 0, 0]
    ensures |data| == 1 ==> BuildDownload(Key(i, sub), data) == Some([0x2F, i % 256, i / 256, sub] + data + [0, 0, 0])
    ensures |data| == 2 ==> BuildDownload(Key(i, sub), data) == Some([0x2B, i % 256, i / 256, sub] + data + [0, 0])
    ensures |data| == 3 ==> BuildDownload(Key(i, sub), data) == Some([0x27, i % 256, i / 256, sub] + data + [0])
    ensures |data| == 4 ==> BuildDownload(Key(i, sub), data) == Some([0x23, i % 256, i / 256, sub] + data)
    ensures |data| == 1 ==>
              BuildUploadResponse(Key(i, sub), data) == Some([0x4F, i % 256, i / 256, sub] + data + [0, 0, 0])
    ensures |data| == 2 ==>
              BuildUploadResponse(Key(i, sub), data) == Some([0x4B, i % 256, i / 256, sub] + data + [0, 0])
    ensures |data| == 3 ==> BuildUploadResponse(Key(i, sub), data) == Some([0x47, i % 256, i / 256, sub] + data + [0])
    ensures |data| == 4 ==> BuildUploadResponse(Key(i, sub), data) == Some([0x43, i % 256, i / 256, sub] + data)
  {
    assert i / 256 % 256 == i / 256;
    if |data| == 4 {
      NothingToPad(CCS_DOWNLOAD_INIT, Key(i, sub), data);
      NothingToPad(SCS_UPLOAD_RESP, Key(i, sub), data);
    }
    assert Zeros(4) == [0, 0, 0, 0] && Zeros(3) == [0, 0, 0] && Zeros(2) == [0, 0] && Zeros(1) == [0] && Zeros(0) == [];
  }

  lemma NothingToPad(specifier: byte, key: Key, data: seq<byte>)
    requires specifier in {CCS_DOWNLOAD_INIT, SCS_UPLOAD_RESP} && |data| == 4
    ensures BuildExpedited(specifier, key, data) == Some(Header(specifier + 3, key) + data)
  {
    assert Header(specifier + 3, key) + data + Zeros(0) == Header(specifier + 3, key) + data;
  }

  lemma BuiltAbortBytes(i: int, sub: int, code: nat)
    requires 0 <= i < 0x1_0000 && 0 <= sub < 0x100 && code < 0x1_0000_0000
    ensures BuildAbort(Key(i, sub), code)[..4] == [0x80, i % 256, i / 256, sub]
    ensures |BuildAbort(Key(i, sub), code)| == 8 && LittleEndian(BuildAbort(Key(i, sub), code)[4..]) == code
  {
    var key := Key(i, sub);
    IndexByte(i);
    AbortParses(key, code);
    ParseResponseBytes(BuildAbort(key, code));
  }

  lemma IndexByte(i: int)
    requires 0 <= i < 0x1_0000
    ensures i / 256 % 256 == i / 256
  {
  }

  // ------------------------------------------------------------ typed values

  function ReadU8(data: seq<byte>): nat
    requires 1 <= |data|
  {
    data[0]
  }

  /** Shorter payloads are padded with zeros, longer ones cut. */
  function ReadU16(data: seq<byte>): nat {
    var p := data + Zeros(2);
    U16(p[0], p[1])
  }

  function ReadU32(data: seq<byte>): nat {
    var p := data + Zeros(4);
    U32(p[0], p[1], p[2], p[3])
  }

  function WriteU8(value: int): seq<byte> { [value % 256] }

  function WriteU16(value: int): seq<byte> { Pack16(value) }

  function WriteU32(value: int): seq<byte> { Pack32(value) }

  lemma TypedValuesRoundTrip(value: int)
    ensures ReadU8(WriteU8(value)) == value % 0x100
    ensures ReadU16(WriteU16(value)) == value % 0x1_0000
    ensures ReadU32(WriteU32(value)) == value % 0x1_0000_0000
    ensures ReadU16(WriteU8(value)) == ReadU32(WriteU8(value)) == value % 0x100
    ensures ReadU32(WriteU16(value)) == value % 0x1_0000
  {
    Unpack16(value);
    Unpack32(value);
  }
}
