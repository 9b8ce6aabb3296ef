/** The XAU1 raw UDP tunnel framing. The client encodes packets and decodes replies; the node
    decodes packets and encodes replies. */
module Xau1 {
  import opened Text
  import opened Utf8

  const MAGIC: seq<byte> := [88, 65, 85, 49]
  const VERSION: byte := 1
  const KIND_PACKET: byte := 1
  const KIND_RESPONSE: byte := 2
  const HEADER_BYTES: nat := 20
  const U16_MAX: nat := 0xFFFF
  const U32_MAX: nat := 0xFFFF_FFFF
  const USIZE_MAX: nat := 0xFFFF_FFFF_FFFF_FFFF
  const RECEIVE_BUFFER_BYTES: nat := 4096

  datatype FrameError =
    | TooShort | BadMagic | BadVersion | BadKind | Truncated | LengthOverflow | LengthMismatch
    | NotUtf8(field: string) | SessionRequired | HostRequired | PortRequired | TooLong(field: string)

  datatype RawRequest = RawRequest(
    sessionId: seq<byte>, targetId: Option<seq<byte>>, host: seq<byte>, port: nat, payload: seq<byte>)

  datatype RawResponse = RawResponse(
    statusCode: byte, sessionId: seq<byte>, status: seq<byte>, payload: seq<byte>)

  // ---------------------------------------------------------------- byte order and field reads

  function U16(n: nat): (s: seq<byte>)
    requires n <= U16_MAX
    ensures |s| == 2
  {
    [n / 256, n % 256]
  }

  function U32(n: nat): (s: seq<byte>)
    requires n <= U32_MAX
    ensures |s| == 4
  {
    [n / 0x100_0000, n / 0x1_0000 % 256, n / 256 % 256, n % 256]
  }

  function ReadU16(s: seq<byte>, offset: nat): (r: Result<nat, FrameError>)
    ensures r.Ok? <==> offset + 2 <= |s|
    ensures r.Ok? ==> r.value <= U16_MAX && s[offset..offset + 2] == U16(r.value)
  {
    if offset + 2 <= |s| then Ok(s[offset] as int * 256 + s[offset + 1]) else Err(Truncated)
  }

  function ReadU32(s: seq<byte>, offset: nat): (r: Result<nat, FrameError>)
    ensures r.Ok? <==> offset + 4 <= |s|
    ensures r.Ok? ==> r.value <= U32_MAX
  {
    if offset + 4 <= |s| then
      Ok(s[offset] as int * 0x100_0000 + s[offset + 1] as int * 0x1_0000 + s[offset + 2] as int * 256 + s[offset + 3])
    else Err(Truncated)
  }

  function CheckedAdd(a: nat, b: nat): Option<nat> {
    if a + b <= USIZE_MAX then Some(a + b) else None
  }

  /** Reads one text field and moves the offset past it; on an out-of-range field the offset stays. */
  method ReadUtf8Field(s: seq<byte>, offset: nat, len: nat, field: string)
    returns (next: nat, r: Result<seq<byte>, FrameError>)
    ensures offset + len > USIZE_MAX ==> r == Err(LengthOverflow) && next == offset
    ensures |s| < offset + len <= USIZE_MAX ==> r == Err(Truncated) && next == offset
    ensures offset + len <= |s| && offset + len <= USIZE_MAX ==>
      && next == offset + len
      && var text := s[offset..offset + len];
         r == if IsUtf8(text) then Ok(text) else Err(NotUtf8(field))
  {
    next := offset;
    var end := CheckedAdd(offset, len);
    if end.None? {
      return next, Err(LengthOverflow);
    }
    if end.value > |s| {
      return next, Err(Truncated);
    }
    var bytes := s[offset..end.value];
    next := end.value;
    if IsUtf8(bytes) {
      r := Ok(bytes);
    } else {
      r := Err(NotUtf8(field));
    }
  }

  // ---------------------------------------------------------------- frame layout

  /** The 20 header bytes of a frame. */
  function Header(kind: byte, b6: byte, b7: byte, a: nat, b: nat, c: nat, d: nat, n: nat): (h: seq<byte>)
    requires a <= U16_MAX && b <= U16_MAX && c <= U16_MAX && d <= U16_MAX && n <= U32_MAX
    ensures |h| == HEADER_BYTES
    ensures h[..4] == MAGIC && h[4] == VERSION && h[5] == kind && h[6] == b6 && h[7] == b7
    ensures h[8..10] == U16(a) && h[10..12] == U16(b) && h[12..14] == U16(c) && h[14..16] == U16(d)
    ensures h[16..20] == U32(n)
  {
    MAGIC + [VERSION, kind, b6, b7] + U16(a) + U16(b) + U16(c) + U16(d) + U32(n)
  }

  function Bytes(text: Option<seq<byte>>): seq<byte> {
    if text.Some? then text.value else []
  }

  ghost predicate Fits(q: RawRequest) {
    && |q.sessionId| <= U16_MAX && |Bytes(q.targetId)| <= U16_MAX && |q.host| <= U16_MAX
    && q.port <= U16_MAX && |q.payload| <= U32_MAX
  }

  /** A packet frame with its two reserved bytes given. */
  ghost function PacketFrame(q: RawRequest, b6: byte, b7: byte): seq<byte>
    requires Fits(q)
  {
    Header(KIND_PACKET, b6, b7, |q.sessionId|, |Bytes(q.targetId)|, |q.host|, q.port, |q.payload|)
    + q.sessionId + Bytes(q.targetId) + q.host + q.payload
  }

  /** The requests the node accepts. */
  ghost predicate Acceptable(q: RawRequest) {
    && Fits(q)
    && IsUtf8(q.sessionId) && IsUtf8(Bytes(q.targetId)) && IsUtf8(q.host)
    && q.targetId != Some([])
    && !IsBlankText(q.sessionId) && !IsBlankText(q.host) && q.port != 0
  }

  /** frame is the encoding of q, up to the two reserved bytes 6 and 7. */
  ghost predicate Encodes(frame: seq<byte>, q: RawRequest) {
    && |frame| >= HEADER_BYTES
    && Acceptable(q)
    && frame == PacketFrame(q, frame[6], frame[7])
  }

  // ---------------------------------------------------------------- client: packet encoder

  function EncodePacket(sessionId: seq<byte>, targetId: seq<byte>, host: seq<byte>, port: nat, payload: seq<byte>)
    : Result<seq<byte>, FrameError>
    requires port <= U16_MAX
  {
    if |sessionId| > U16_MAX then Err(TooLong("session_id"))
    else if |targetId| > U16_MAX then Err(TooLong("target_id"))
    else if |host| > U16_MAX then Err(TooLong("target host"))
    else if |payload| > U32_MAX then Err(TooLong("payload"))
    else Ok(Header(KIND_PACKET, 0, 0, |sessionId|, |targetId|, |host|, port, |payload|)
            + sessionId + targetId + host + payload)
  }

  method EncodeRawUdpTunnelFrame(
    sessionId: seq<byte>, targetId: seq<byte>, host: seq<byte>, port: nat, payload: seq<byte>)
    returns (r: Result<seq<byte>, FrameError>)
    requires port <= U16_MAX
    ensures r == EncodePacket(sessionId, targetId, host, port, payload)
  {
    if |sessionId| > U16_MAX { return Err(TooLong("session_id")); }
    if |targetId| > U16_MAX { return Err(TooLong("target_id")); }
    if |host| > U16_MAX { return Err(TooLong("target host")); }
    if |payload| > U32_MAX { return Err(TooLong("payload")); }
    var frame: seq<byte> := [];
    frame := frame + MAGIC;
    frame := frame + [VERSION];
    frame := frame + [KIND_PACKET];
    frame := frame + [0];
    frame := frame + [0];
    frame := frame + U16(|sessionId|);
    frame := frame + U16(|targetId|);
    frame := frame + U16(|host|);
    frame := frame + U16(port);
    frame := frame + U32(|payload|);
    assert frame == Header(KIND_PACKET, 0, 0, |sessionId|, |targetId|, |host|, port, |payload|);
    frame := frame + sessionId;
    frame := frame + targetId;
    frame := frame + host;
    frame := frame + payload;
    r := Ok(frame);
  }

  // ---------------------------------------------------------------- node: packet parser

  /** The header checks, in the order both decoders make them. */
  function HeaderError(s: seq<byte>, kind: byte): (e: Option<FrameError>)
    ensures e.None? ==> |s| >= HEADER_BYTES
  {
    if |s| < HEADER_BYTES then Some(TooShort)
    else if s[..4] != MAGIC then Some(BadMagic)
    else if s[4] != VERSION then Some(BadVersion)
    else if s[5] != kind then Some(BadKind)
    else None
  }

  /** A packet cut into its fields, before any look at their contents. */
  datatype Parts = Parts(session: seq<byte>, target: seq<byte>, host: seq<byte>, port: nat, payload: seq<byte>)

  function CutPacket(s: seq<byte>): Result<Parts, FrameError> {
    if HeaderError(s, KIND_PACKET).Some? then Err(HeaderError(s, KIND_PACKET).value)
    else
      var a := ReadU16(s, 8).value;
      var b := ReadU16(s, 10).value;
      var c := ReadU16(s, 12).value;
      var n := ReadU32(s, 16).value;
      if |s| != HEADER_BYTES + a + b + c + n then Err(LengthMismatch)
      else Ok(Parts(s[20..20 + a], s[20 + a..20 + a + b], s[20 + a + b..20 + a + b + c],
                    ReadU16(s, 14).value, s[20 + a + b + c..]))
  }

  function CheckPacket(p: Parts): Result<RawRequest, FrameError> {
    if !IsUtf8(p.session) then Err(NotUtf8("session_id"))
    else if p.target != [] && !IsUtf8(p.target) then Err(NotUtf8("target_id"))
    else if !IsUtf8(p.host) then Err(NotUtf8("host"))
    else if IsBlankText(p.session) then Err(SessionRequired)
    else if IsBlankText(p.host) then Err(HostRequired)
    else if p.port == 0 then Err(PortRequired)
    else Ok(RawRequest(p.session, if p.target == [] then None else Some(p.target), p.host, p.port, p.payload))
  }

  /** The decision of the parser on every byte string. */
  function ParseFrame(s: seq<byte>): Result<RawRequest, FrameError> {
    match CutPacket(s)
    case Ok(parts) => CheckPacket(parts)
    case Err(error) => Err(error)
  }

  /** The parser as the node runs it: checked sums, then fields taken one after the other while the
      offset moves. Every index is in range, and no length sum overflows. */
  method ParseRawUdpTunnelFrame(s: seq<byte>) returns (r: Result<RawRequest, FrameError>)
    requires |s| <= USIZE_MAX
    ensures r == ParseFrame(s)
  {
    var headerError := HeaderError(s, KIND_PACKET);
    if headerError.Some? { return Err(headerError.value); }

    var sessionLen := ReadU16(s, 8).value;
    var targetLen := ReadU16(s, 10).value;
    var hostLen := ReadU16(s, 12).value;
    var port := ReadU16(s, 14).value;
    var payloadLen := ReadU32(s, 16).value;
    var total := CheckedAdd(HEADER_BYTES, sessionLen);
    if total.Some? { total := CheckedAdd(total.value, targetLen); }
    if total.Some? { total := CheckedAdd(total.value, hostLen); }
    if total.Some? { total := CheckedAdd(total.value, payloadLen); }
    if total.None? { return Err(LengthOverflow); }
    if |s| != total.value { return Err(LengthMismatch); }
    r := ReadPacketFields(s, sessionLen, targetLen, hostLen, port, payloadLen);
  }

  /** The second half of the parser: the fields, one after the other. */
  method ReadPacketFields(
    s: seq<byte>, sessionLen: nat, targetLen: nat, hostLen: nat, port: nat, payloadLen: nat)
    returns (r: Result<RawRequest, FrameError>)
    requires |s| <= USIZE_MAX && |s| == HEADER_BYTES + sessionLen + targetLen + hostLen + payloadLen
    ensures
      var i, j, k := 20 + sessionLen, 20 + sessionLen + targetLen, 20 + sessionLen + targetLen + hostLen;
      r == CheckPacket(Parts(s[20..i], s[i..j], s[j..k], port, s[k..]))
  {
    hide IsUtf8, IsBlankText;
    ghost var i, j := 20 + sessionLen, 20 + sessionLen + targetLen;
    ghost var parts := Parts(s[20..i], s[i..j], s[j..j + hostLen], port, s[j + hostLen..]);
    var offset := HEADER_BYTES;
    var session, target, host;
    offset, session := ReadUtf8Field(s, offset, sessionLen, "session_id");
    assert session == if IsUtf8(parts.session) then Ok(parts.session) else Err(NotUtf8("session_id"));
    if session.Err? { return Err(session.error); }
    assert offset == i;
    var targetId: Option<seq<byte>> := None;
    if targetLen != 0 {
      offset, target := ReadUtf8Field(s, offset, targetLen, "target_id");
      assert target == if IsUtf8(parts.target) then Ok(parts.target) else Err(NotUtf8("target_id"));
      if target.Err? { return Err(target.error); }
      targetId := Some(target.value);
    }
    assert offset == j && targetId == if parts.target == [] then None else Some(parts.target);
    offset, host := ReadUtf8Field(s, offset, hostLen, "host");
    assert host == if IsUtf8(parts.host) then Ok(parts.host) else Err(NotUtf8("host"));
    if host.Err? { return Err(host.error); }
    assert offset == j + hostLen && offset + payloadLen == |s|;
    var payload := s[offset..offset + payloadLen];
    assert payload == parts.payload;

    if IsBlankText(session.value) { return Err(SessionRequired); }
    if IsBlankText(host.value) { return Err(HostRequired); }
    if port == 0 { return Err(PortRequired); }
    r := Ok(RawRequest(session.value, targetId, host.value, port, payload));
  }

  // ---------------------------------------------------------------- theorems about packets

  lemma ReadBack16(s: seq<byte>, offset: nat, n: nat)
    requires n <= U16_MAX && offset + 2 <= |s| && s[offset..offset + 2] == U16(n)
    ensures ReadU16(s, offset) == Ok(n)
  {
    var pair := s[offset..offset + 2];
    assert pair[0] == n / 256 && pair[1] == n % 256;
  }

  lemma ReadBack32(s: seq<byte>, offset: nat, n: nat)
    requires n <= U32_MAX && offset + 4 <= |s| && s[offset..offset + 4] == U32(n)
    ensures ReadU32(s, offset) == Ok(n)
  {
    var quad := s[offset..offset + 4];
    assert quad[0] == n / 0x100_0000 && quad[1] == n / 0x1_0000 % 256 && quad[2] == n / 256 % 256 && quad[3] == n % 256;
    assert n / 0x1_0000 == n / 0x100_0000 * 256 + n / 0x1_0000 % 256;
    assert n / 256 == n / 0x1_0000 * 256 + n / 256 % 256;
  }

  lemma HeaderFields(s: seq<byte>, kind: byte, b6: byte, b7: byte, a: nat, b: nat, c: nat, d: nat, n: nat)
    requires a <= U16_MAX && b <= U16_MAX && c <= U16_MAX && d <= U16_MAX && n <= U32_MAX
    requires |s| >= HEADER_BYTES && s[..20] == Header(kind, b6, b7, a, b, c, d, n)
    ensures s[..4] == MAGIC && s[4] == VERSION && s[5] == kind && s[6] == b6 && s[7] == b7
    ensures ReadU16(s, 8) == Ok(a) && ReadU16(s, 10) == Ok(b) && ReadU16(s, 12) == Ok(c) && ReadU16(s, 14) == Ok(d)
    ensures ReadU32(s, 16) == Ok(n)
  {
    var h := s[..20];
    assert s[..4] == h[..4] && s[4] == h[4] && s[5] == h[5] && s[6] == h[6] && s[7] == h[7];
    assert s[8..10] == h[8..10] && s[10..12] == h[10..12] && s[12..14] == h[12..14] && s[14..16] == h[14..16];
    assert s[16..20] == h[16..20];
    ReadBack16(s, 8, a);
    ReadBack16(s, 10, b);
    ReadBack16(s, 12, c);
    ReadBack16(s, 14, d);
    ReadBack32(s, 16, n);
  }

  lemma ReadU32Slice(s: seq<byte>, offset: nat)
    requires offset + 4 <= |s|
    ensures s[offset..offset + 4] == U32(ReadU32(s, offset).value)
  {
    var w, x, y, z := s[offset] as int, s[offset + 1] as int, s[offset + 2] as int, s[offset + 3] as int;
    var n := ReadU32(s, offset).value;
    assert n == ((w * 256 + x) * 256 + y) * 256 + z;
    assert n / 256 == (w * 256 + x) * 256 + y && n % 256 == z;
    assert n / 0x1_0000 == w * 256 + x;
    assert n / 0x100_0000 == w;
  }

  lemma HeaderOf(s: seq<byte>)
    requires |s| >= HEADER_BYTES && s[..4] == MAGIC && s[4] == VERSION
    ensures s[..20] == Header(s[5], s[6], s[7], ReadU16(s, 8).value, ReadU16(s, 10).value, ReadU16(s, 12).value,
                              ReadU16(s, 14).value, ReadU32(s, 16).value)
  {
    ReadU32Slice(s, 16);
    assert s[..20] == s[..4] + [s[4], s[5], s[6], s[7]] + s[8..10] + s[10..12] + s[12..14] + s[14..16] + s[16..20];
  }

  /** Cutting is the inverse of laying out, for packets. */
  lemma CutLaidOut(s: seq<byte>, b6: byte, b7: byte, p: Parts)
    requires |p.session| <= U16_MAX && |p.target| <= U16_MAX && |p.host| <= U16_MAX
    requires p.port <= U16_MAX && |p.payload| <= U32_MAX
    requires s == Header(KIND_PACKET, b6, b7, |p.session|, |p.target|, |p.host|, p.port, |p.payload|)
                  + p.session + p.target + p.host + p.payload
    ensures CutPacket(s) == Ok(p) && s[6] == b6 && s[7] == b7
  {
    var a, b, c := |p.session|, |p.target|, |p.host|;
    assert s[..20] == Header(KIND_PACKET, b6, b7, a, b, c, p.port, |p.payload|);
    HeaderFields(s, KIND_PACKET, b6, b7, a, b, c, p.port, |p.payload|);
    assert s[20..20 + a] == p.session;
    assert s[20 + a..20 + a + b] == p.target;
    assert s[20 + a + b..20 + a + b + c] == p.host;
    assert s[20 + a + b + c..] == p.payload;
  }

  lemma LaidOutCut(s: seq<byte>)
    requires CutPacket(s).Ok?
    ensures
      var p := CutPacket(s).value;
      && |p.session| <= U16_MAX && |p.target| <= U16_MAX && |p.host| <= U16_MAX && |p.payload| <= U32_MAX
      && p.port <= U16_MAX
      && s == Header(KIND_PACKET, s[6], s[7], |p.session|, |p.target|, |p.host|, p.port, |p.payload|)
              + p.session + p.target + p.host + p.payload
  {
    HeaderOf(s);
    var p := CutPacket(s).value;
    assert s == s[..20] + p.session + p.target + p.host + p.payload;
  }

  /** Decoding is canonical: the parser accepts s as q exactly when s is q's encoding, up to the two
      reserved bytes it ignores. */
  lemma ParseIsCanonical(s: seq<byte>, q: RawRequest)
    ensures ParseFrame(s) == Ok(q) <==> Encodes(s, q)
  {
    if ParseFrame(s) == Ok(q) {
      AcceptedIsEncoding(s, q);
    }
    if Encodes(s, q) {
      CutLaidOut(s, s[6], s[7], Parts(q.sessionId, Bytes(q.targetId), q.host, q.port, q.payload));
    }
  }

  lemma AcceptedIsEncoding(s: seq<byte>, q: RawRequest)
    requires ParseFrame(s) == Ok(q)
    ensures Encodes(s, q)
  {
    LaidOutCut(s);
    var p := CutPacket(s).value;
    assert q.sessionId == p.session && Bytes(q.targetId) == p.target && q.host == p.host && q.payload == p.payload;
    assert IsUtf8([]);
    assert Acceptable(q);
  }

  /** The node recovers exactly what the client's encoder was given; an empty target id stands for
      an absent one. */
  lemma PacketRoundTrip(sessionId: seq<byte>, targetId: seq<byte>, host: seq<byte>, port: nat, payload: seq<byte>)
    requires port <= U16_MAX
    requires IsUtf8(sessionId) && IsUtf8(targetId) && IsUtf8(host)
    requires EncodePacket(sessionId, targetId, host, port, payload).Ok?
    ensures
      var frame := EncodePacket(sessionId, targetId, host, port, payload).value;
      ParseFrame(frame) ==
        if IsBlankText(sessionId) then Err(SessionRequired)
        else if IsBlankText(host) then Err(HostRequired)
        else if port == 0 then Err(PortRequired)
        else Ok(RawRequest(sessionId, if targetId == [] then None else Some(targetId), host, port, payload))
  {
    var frame := EncodePacket(sessionId, targetId, host, port, payload).value;
    CutLaidOut(frame, 0, 0, Parts(sessionId, targetId, host, port, payload));
  }

  /** Two packets with the same bytes are the same packet: the client's encoder is injective. */
  lemma EncodeInjective(s1: seq<byte>, t1: seq<byte>, h1: seq<byte>, p1: nat, d1: seq<byte>,
                        s2: seq<byte>, t2: seq<byte>, h2: seq<byte>, p2: nat, d2: seq<byte>)
    requires p1 <= U16_MAX && p2 <= U16_MAX
    requires EncodePacket(s1, t1, h1, p1, d1).Ok?
    requires EncodePacket(s1, t1, h1, p1, d1) == EncodePacket(s2, t2, h2, p2, d2)
    ensures s1 == s2 && t1 == t2 && h1 == h2 && p1 == p2 && d1 == d2
  {
    var frame := EncodePacket(s1, t1, h1, p1, d1).value;
    CutLaidOut(frame, 0, 0, Parts(s1, t1, h1, p1, d1));
    CutLaidOut(frame, 0, 0, Parts(s2, t2, h2, p2, d2));
  }

  /** No proper prefix and no proper extension of an accepted frame is accepted. */
  lemma AcceptedFramesArePrefixFree(s: seq<byte>, longer: seq<byte>)
    requires s < longer
    ensures ParseFrame(s).Err? || ParseFrame(longer).Err?
  {
    if |s| >= HEADER_BYTES {
      assert s[..4] == longer[..4] && s[4] == longer[4] && s[5] == longer[5];
      assert forall i :: 0 <= i < 20 ==> s[i] == longer[i];
    }
  }

  datatype Dispatch = RawTunnel(request: RawRequest) | Invalid(error: FrameError) | TextMessage

  /** The first branch of message parsing: the magic decides between a frame and a text message. */
  function DispatchMessage(s: seq<byte>): Dispatch {
    if MAGIC <= s then
      match ParseFrame(s)
      case Ok(request) => RawTunnel(request)
      case Err(error) => Invalid(error)
    else TextMessage
  }

  /** A datagram longer than the listener's buffer is cut, and the cut frame is always rejected as
      an invalid message. */
  lemma CutDatagramIsInvalid(s: seq<byte>)
    requires ParseFrame(s).Ok? && |s| > RECEIVE_BUFFER_BYTES
    ensures DispatchMessage(s[..RECEIVE_BUFFER_BYTES]).Invalid?
  {
    var cut := s[..RECEIVE_BUFFER_BYTES];
    AcceptedFramesArePrefixFree(cut, s);
    assert cut[..4] == s[..4];
  }

  // ---------------------------------------------------------------- node: reply encoder

  function Saturate(n: nat, max: nat): nat {
    if n <= max then n else max
  }

  function StatusCode(status: string): byte {
    if status == "forwarded" then 0 else if status == "upstream_timeout" then 1 else 2
  }

  predicate IsAscii(s: string) {
    forall i :: 0 <= i < |s| ==> s[i] < 128 as char
  }

  function ReplyFrame(sessionId: seq<byte>, status: string, payload: seq<byte>): seq<byte>
    requires IsAscii(status)
  {
    Header(KIND_RESPONSE, StatusCode(status), 0, Saturate(|sessionId|, U16_MAX), Saturate(|status|, U16_MAX),
           0, 0, Saturate(|payload|, U32_MAX))
    + sessionId + Ascii(status) + payload
  }

  method EncodeRawUdpTunnelResponse(sessionId: seq<byte>, status: string, payload: seq<byte>)
    returns (encoded: seq<byte>)
    requires IsAscii(status)
    ensures encoded == ReplyFrame(sessionId, status, payload)
  {
    var statusBytes := Ascii(status);
    var sessionLen := Saturate(|sessionId|, U16_MAX);
    var statusLen := Saturate(|statusBytes|, U16_MAX);
    var payloadLen := Saturate(|payload|, U32_MAX);
    encoded := [];
    encoded := encoded + MAGIC;
    encoded := encoded + [VERSION];
    encoded := encoded + [KIND_RESPONSE];
    encoded := encoded + [StatusCode(status)];
    encoded := encoded + [0];
    encoded := encoded + U16(sessionLen);
    encoded := encoded + U16(statusLen);
    encoded := encoded + U16(0);
    encoded := encoded + U16(0);
    encoded := encoded + U32(payloadLen);
    assert encoded == Header(KIND_RESPONSE, StatusCode(status), 0, sessionLen, statusLen, 0, 0, payloadLen);
    encoded := encoded + sessionId;
    encoded := encoded + statusBytes;
    encoded := encoded + payload;
  }

  // ---------------------------------------------------------------- client: reply decoder

  function DecodeReply(s: seq<byte>): Result<RawResponse, FrameError> {
    if HeaderError(s, KIND_RESPONSE).Some? then Err(HeaderError(s, KIND_RESPONSE).value)
    else
      var a := ReadU16(s, 8).value;
      var b := ReadU16(s, 10).value;
      var n := ReadU32(s, 16).value;
      if |s| != HEADER_BYTES + a + b + n then Err(LengthMismatch)
      else CheckReply(s[6], s[20..20 + a], s[20 + a..20 + a + b], s[20 + a + b..])
  }

  function CheckReply(code: byte, session: seq<byte>, status: seq<byte>, payload: seq<byte>)
    : Result<RawResponse, FrameError>
  {
    if !IsUtf8(session) then Err(NotUtf8("session_id"))
    else if !IsUtf8(status) then Err(NotUtf8("status"))
    else Ok(RawResponse(code, session, status, payload))
  }

  method DecodeRawUdpTunnelResponse(s: seq<byte>) returns (r: Result<RawResponse, FrameError>)
    requires |s| <= USIZE_MAX
    ensures r == DecodeReply(s)
  {
    var headerError := HeaderError(s, KIND_RESPONSE);
    if headerError.Some? { return Err(headerError.value); }
    var sessionLen := ReadU16(s, 8).value;
    var statusLen := ReadU16(s, 10).value;
    var payloadLen := ReadU32(s, 16).value;
    var total := CheckedAdd(HEADER_BYTES, sessionLen);
    if total.Some? { total := CheckedAdd(total.value, statusLen); }
    if total.Some? { total := CheckedAdd(total.value, payloadLen); }
    if total.None? { return Err(LengthOverflow); }
    if |s| != total.value { return Err(LengthMismatch); }
    r := ReadReplyFields(s, sessionLen, statusLen, payloadLen);
  }

  method ReadReplyFields(s: seq<byte>, sessionLen: nat, statusLen: nat, payloadLen: nat)
    returns (r: Result<RawResponse, FrameError>)
    requires |s| <= USIZE_MAX && |s| == HEADER_BYTES + sessionLen + statusLen + payloadLen
    ensures
      var i, j := 20 + sessionLen, 20 + sessionLen + statusLen;
      r == CheckReply(s[6], s[20..i], s[i..j], s[j..])
  {
    hide IsUtf8;
    ghost var i, j := 20 + sessionLen, 20 + sessionLen + statusLen;
    ghost var first, second, third := s[20..i], s[i..j], s[j..];
    var offset := HEADER_BYTES;
    var session, status;
    offset, session := ReadUtf8Field(s, offset, sessionLen, "session_id");
    assert session == if IsUtf8(first) then Ok(first) else Err(NotUtf8("session_id"));
    if session.Err? { return Err(session.error); }
    assert offset == i;
    offset, status := ReadUtf8Field(s, offset, statusLen, "status");
    assert status == if IsUtf8(second) then Ok(second) else Err(NotUtf8("status"));
    if status.Err? { return Err(status.error); }
    assert offset == j && offset + payloadLen == |s|;
    var payload := s[offset..offset + payloadLen];
    assert payload == third;
    r := Ok(RawResponse(s[6], session.value, status.value, payload));
  }

  /** Every status the node puts in a reply. */
  const STATUSES: set<string> := {
    "forwarded", "upstream_timeout", "unsupported_transport", "session_not_found", "session_expired",
    "relay_auth_required", "missing_target", "target_protocol_unsupported", "target_not_allowed",
    "invalid_target", "missing_target_port", "relay_error"
  }

  const MAX_RELAY_RESPONSE_BYTES: nat := 4096

  lemma StatusesAreShortAscii(status: string)
    requires status in STATUSES
    ensures IsAscii(status) && |status| <= 32
  {
  }

  /** For every accepted request, every status and every relayed payload, no length saturates and the
      client decodes the node's reply to the same session id, status and payload; the status code is
      1 exactly for an upstream timeout and 0 exactly for a forwarded reply. */
  lemma ReplyRoundTrip(request: seq<byte>, status: string, payload: seq<byte>)
    requires ParseFrame(request).Ok? && status in STATUSES && |payload| <= MAX_RELAY_RESPONSE_BYTES
    ensures IsAscii(status)
    ensures
      var q := ParseFrame(request).value;
      DecodeReply(ReplyFrame(q.sessionId, status, payload))
      == Ok(RawResponse(StatusCode(status), q.sessionId, Ascii(status), payload))
    ensures StatusCode(status) == 1 <==> status == "upstream_timeout"
    ensures StatusCode(status) == 0 <==> status == "forwarded"
  {
    StatusesAreShortAscii(status);
    var session := ParseFrame(request).value.sessionId;
    var s := ReplyFrame(session, status, payload);
    var a, b := |session|, |status|;
    assert s[..20] == Header(KIND_RESPONSE, StatusCode(status), 0, a, b, 0, 0, |payload|);
    HeaderFields(s, KIND_RESPONSE, StatusCode(status), 0, a, b, 0, 0, |payload|);
    AsciiIsUtf8(Ascii(status));
    assert s[20..20 + a] == session;
    assert s[20 + a..20 + a + b] == Ascii(status);
    assert s[20 + a + b..] == payload;
  }

  /** A packet never decodes as a reply, nor a reply as a packet. */
  lemma KindsAreDisjoint(s: seq<byte>)
    ensures ParseFrame(s).Err? || DecodeReply(s).Err?
  {
  }
}
