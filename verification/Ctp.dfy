/** CTP, the transport inside the CTPP channel (viper/ctp.py). */
module Ctp {
  import opened Bytes
  import Frames

  const CTP_VERSION: byte := 0x18

  const FLAG_ACK: byte := 0x00
  const FLAG_FIN: byte := 0x20
  const FLAG_DATA: byte := 0x40
  const FLAG_SYN: byte := 0xC0

  const OP_INVITE := 0x0001
  const OP_RELEASE := 0x000E
  const OP_REGISTER_RESPONSE := 0x0041

  const LOGADDR_LEN := 10
  const TRAILER_MARKER: bytes := [0xFF, 0xFF, 0xFF, 0xFF]
  const TAG_FLOOR_CALL: bytes := [0x46, 0x46]
  const TAG_ENTRANCE: bytes := [0x50, 0x50]

  datatype CtpPacket = CtpPacket(
    flags: byte,
    connection: bytes,
    sequence: byte,
    acknowledgement: byte,
    body: bytes,
    source: string,
    destination: string)
  {
    function Opcode(): Option<u16> {
      if |body| >= 2 then Some(ReadU16Be(body, 0)) else None
    }

    predicate IsSyn() {
      HasBit(flags, 0x80)
    }

    predicate IsFin() {
      HasBit(flags, 0x20)
    }

    function ReleaseCause(): Option<byte> {
      if Opcode() != Some(OP_RELEASE) || |body| < 3 then None else Some(body[2])
    }
  }

  // ---------------------------------------------------------------- logical addresses

  predicate Latin1(s: string) {
    forall i :: 0 <= i < |s| ==> s[i] as int < 0x100
  }

  function Latin1Bytes(s: string): (b: bytes)
    requires Latin1(s)
    ensures |b| == |s|
  {
    seq(|s|, i requires 0 <= i < |s| => s[i] as int)
  }

  function Latin1Text(b: bytes): (s: string)
    ensures |s| == |b| && Latin1(s)
  {
    seq(|b|, i requires 0 <= i < |b| => b[i] as char)
  }

  function StripNuls(b: bytes): (r: bytes)
    ensures r <= b
    ensures r != [] ==> r[|r| - 1] != 0
    ensures b == r + Zeros(|b| - |r|)
  {
    if b != [] && b[|b| - 1] == 0 then
      var r := StripNuls(b[..|b| - 1]);
      assert b == b[..|b| - 1] + [0];
      assert Zeros(|b| - |r|) == Zeros(|b| - 1 - |r|) + [0];
      r
    else b
  }

  function DecodeLogaddr(raw: bytes): string
    requires |raw| == LOGADDR_LEN
  {
    Latin1Text(StripNuls(raw))
  }

  /** What a ViP address may be: at most ten Latin-1 characters, none of them NUL. */
  predicate Address(s: string) {
    Latin1(s) && |s| <= LOGADDR_LEN && 0 !in Latin1Bytes(s)
  }

  function EncodeLogaddr(address: string): (r: Result<bytes>)
    ensures r.Ok? <==> Address(address)
    ensures r.Ok? ==> |r.value| == LOGADDR_LEN
  {
    if !Latin1(address) then ValueError
    else
      var raw := Latin1Bytes(address);
      if |raw| > LOGADDR_LEN || 0 in raw then ValueError
      else Ok(raw + Zeros(LOGADDR_LEN - |raw|))
  }

  lemma {:induction false} StripPadding(b: bytes, n: nat)
    requires 0 !in b
    ensures StripNuls(b + Zeros(n)) == b
  {
    var padded := b + Zeros(n);
    if n == 0 {
      assert padded == b;
      assert b != [] ==> b[|b| - 1] in b;
    } else {
      StripPadding(b, n - 1);
      assert padded[|padded| - 1] == 0;
      assert padded[..|padded| - 1] == b + Zeros(n - 1);
    }
  }

  lemma AddressRoundTrip(address: string)
    requires Address(address)
    ensures DecodeLogaddr(EncodeLogaddr(address).value) == address
  {
    var raw := Latin1Bytes(address);
    StripPadding(raw, LOGADDR_LEN - |raw|);
    assert Latin1Text(raw) == address;
  }

  lemma BytesOfText(b: bytes)
    ensures Latin1Bytes(Latin1Text(b)) == b
  {
  }

  /** An address field decodes to something encodable, and back to the same bytes, just when no NUL stands inside it. */
  lemma AddressFieldRoundTrip(raw: bytes)
    requires |raw| == LOGADDR_LEN
    ensures EncodeLogaddr(DecodeLogaddr(raw)) == if 0 in StripNuls(raw) then ValueError else Ok(raw)
  {
    hide StripNuls, Latin1Bytes, Latin1Text, Latin1;
    BytesOfText(StripNuls(raw));
  }

  // ---------------------------------------------------------------- packets

  /** -len(body) % 4 */
  function Padding(bodyLen: nat): nat {
    (-(bodyLen as int)) % 4
  }

  function ParseCtpPacket(payload: bytes): Result<CtpPacket> {
    if |payload| < 32 || payload[1] != CTP_VERSION then ValueError
    else
      var bodyLen := ReadU16Be(payload, 6);
      var bodyEnd := 8 + bodyLen;
      var trailerStart := bodyEnd + Padding(bodyLen);
      if |payload| != trailerStart + 24 then ValueError
      else
        var trailer := payload[trailerStart..];
        if trailer[..4] != TRAILER_MARKER then ValueError
        else
          Ok(CtpPacket(payload[0], payload[2..4], payload[4], payload[5], payload[8..bodyEnd],
                       DecodeLogaddr(trailer[4..14]), DecodeLogaddr(trailer[14..24])))
  }

  function BuildCtpPacket(flags: int, connection: bytes, sequence: int, acknowledgement: int,
                          body: bytes, source: string, destination: string): Result<bytes>
  {
    if !(0 <= flags <= 0xFF && 0 <= sequence <= 0xFF && 0 <= acknowledgement <= 0xFF) then ValueError
    else if |connection| != 2 || |body| > 0xFFFF then ValueError
    else match (EncodeLogaddr(source), EncodeLogaddr(destination))
      case (Ok(from), Ok(to)) =>
        Ok(Header(flags, connection, sequence, acknowledgement, |body|) + body + Zeros(Padding(|body|)) +
           Trailer(from, to))
      case _ => ValueError
  }

  function Header(flags: byte, connection: bytes, sequence: byte, acknowledgement: byte, bodyLen: u16): (h: bytes)
    requires |connection| == 2
    ensures |h| == 8
  {
    [flags, CTP_VERSION] + connection + [sequence, acknowledgement] + U16Be(bodyLen)
  }

  function Trailer(from: bytes, to: bytes): bytes {
    TRAILER_MARKER + from + to
  }

  function Build(p: CtpPacket): Result<bytes> {
    BuildCtpPacket(p.flags, p.connection, p.sequence, p.acknowledgement, p.body, p.source, p.destination)
  }

  /** The packets that can be put on the wire. */
  predicate Encodable(p: CtpPacket) {
    |p.connection| == 2 && |p.body| <= 0xFFFF && Address(p.source) && Address(p.destination)
  }

  lemma HeaderFields(flags: byte, connection: bytes, sequence: byte, acknowledgement: byte, bodyLen: u16)
    requires |connection| == 2
    ensures var h := Header(flags, connection, sequence, acknowledgement, bodyLen);
            && h[0] == flags && h[1] == CTP_VERSION && h[2..4] == connection && h[4] == sequence
            && h[5] == acknowledgement && ReadU16Be(h, 6) == bodyLen
  {
  }

  lemma TrailerFields(from: bytes, to: bytes)
    requires |from| == |to| == LOGADDR_LEN
    ensures var t := Trailer(from, to);
            |t| == 24 && t[..4] == TRAILER_MARKER && t[4..14] == from && t[14..24] == to
  {
  }

  /** Where the four parts of a packet lie. */
  lemma Layout(head: bytes, body: bytes, pad: bytes, tail: bytes)
    ensures var wire := head + body + pad + tail;
            var end := |head| + |body|;
            && wire[..|head|] == head && wire[|head|..end] == body && wire[end..end + |pad|] == pad
            && wire[end + |pad|..] == tail
  {
  }

  lemma BuildLayout(p: CtpPacket)
    requires Build(p).Ok?
    ensures var wire := Build(p).value;
            var end := 8 + |p.body|;
            var start := end + Padding(|p.body|);
            && |wire| == start + 24
            && wire[..8] == Header(p.flags, p.connection, p.sequence, p.acknowledgement, |p.body|)
            && wire[8..end] == p.body && wire[end..start] == Zeros(Padding(|p.body|))
            && wire[start..] == Trailer(EncodeLogaddr(p.source).value, EncodeLogaddr(p.destination).value)
  {
    var head := Header(p.flags, p.connection, p.sequence, p.acknowledgement, |p.body|);
    var tail := Trailer(EncodeLogaddr(p.source).value, EncodeLogaddr(p.destination).value);
    Layout(head, p.body, Zeros(Padding(|p.body|)), tail);
  }

  lemma HeaderInPlace(wire: bytes, h: bytes)
    requires |wire| >= 8 && |h| == 8 && wire[..8] == h
    ensures wire[0] == h[0] && wire[1] == h[1] && wire[2..4] == h[2..4] && wire[4] == h[4] && wire[5] == h[5]
    ensures ReadU16Be(wire, 6) == ReadU16Be(h, 6)
  {
    forall i | 0 <= i < 8 ensures wire[i] == h[i] {
      assert wire[i] == wire[..8][i];
    }
  }

  /** Building succeeds exactly on the encodable packets, and parsing gives the packet back. */
  lemma ParseUndoesBuild(p: CtpPacket)
    ensures Build(p).Ok? <==> Encodable(p)
    ensures Encodable(p) ==> ParseCtpPacket(Build(p).value) == Ok(p)
  {
    if Encodable(p) {
      var wire := Build(p).value;
      BuildLayout(p);
      HeaderFields(p.flags, p.connection, p.sequence, p.acknowledgement, |p.body|);
      HeaderInPlace(wire, Header(p.flags, p.connection, p.sequence, p.acknowledgement, |p.body|));
      TrailerFields(EncodeLogaddr(p.source).value, EncodeLogaddr(p.destination).value);
      AddressRoundTrip(p.source);
      AddressRoundTrip(p.destination);
    }
  }

  /** What a payload must be, beyond parsing, to be the one our own encoder would have written. */
  predicate Canonical(payload: bytes)
    requires ParseCtpPacket(payload).Ok?
  {
    var bodyEnd := 8 + |ParseCtpPacket(payload).value.body|;
    && (forall i :: bodyEnd <= i < |payload| - 24 ==> payload[i] == 0)
    && 0 !in StripNuls(payload[|payload| - 20..|payload| - 10])
    && 0 !in StripNuls(payload[|payload| - 10..])
  }

  lemma HeaderExact(payload: bytes)
    requires |payload| >= 8 && payload[1] == CTP_VERSION
    ensures Header(payload[0], payload[2..4], payload[4], payload[5], ReadU16Be(payload, 6)) == payload[..8]
  {
    assert payload[..8] == payload[..2] + payload[2..4] + payload[4..6] + payload[6..8];
    assert U16Be(ReadU16Be(payload, 6)) == payload[6..8];
    assert payload[..2] == [payload[0], CTP_VERSION];
    assert payload[4..6] == [payload[4], payload[5]];
  }

  lemma TrailerExact(payload: bytes)
    requires |payload| >= 24 && payload[|payload| - 24..][..4] == TRAILER_MARKER
    ensures var n := |payload|;
            && payload[n - 24..][4..14] == payload[n - 20..n - 10] && payload[n - 24..][14..24] == payload[n - 10..]
            && Trailer(payload[n - 20..n - 10], payload[n - 10..]) == payload[n - 24..]
  {
    var t := payload[|payload| - 24..];
    assert t == t[..4] + t[4..14] + t[14..24];
  }

  lemma PartsOf(payload: bytes)
    requires ParseCtpPacket(payload).Ok?
    ensures var p := ParseCtpPacket(payload).value;
            var bodyEnd := 8 + |p.body|;
            && bodyEnd + Padding(|p.body|) == |payload| - 24 && |p.body| <= 0xFFFF && |p.connection| == 2
            && payload == Header(p.flags, p.connection, p.sequence, p.acknowledgement, |p.body|) + p.body
                          + payload[bodyEnd..|payload| - 24]
                          + Trailer(payload[|payload| - 20..|payload| - 10], payload[|payload| - 10..])
            && p.source == DecodeLogaddr(payload[|payload| - 20..|payload| - 10])
            && p.destination == DecodeLogaddr(payload[|payload| - 10..])
  {
    var p := ParseCtpPacket(payload).value;
    var bodyEnd, start := 8 + |p.body|, |payload| - 24;
    assert Header(p.flags, p.connection, p.sequence, p.acknowledgement, |p.body|) == payload[..8] by {
      HeaderExact(payload);
    }
    TrailerExact(payload);
    FourPieces(payload, 8, bodyEnd, start);
  }

  lemma FourPieces(b: bytes, i: nat, j: nat, k: nat)
    requires i <= j <= k <= |b|
    ensures b == b[..i] + b[i..j] + b[j..k] + b[k..]
  {
  }

  /** Building undoes parsing exactly when the padding is zero and no address field has a NUL inside it. */
  lemma BuildUndoesParse(payload: bytes)
    requires ParseCtpPacket(payload).Ok?
    ensures Build(ParseCtpPacket(payload).value) == Ok(payload) <==> Canonical(payload)
  {
    var p := ParseCtpPacket(payload).value;
    var bodyEnd, start := 8 + |p.body|, |payload| - 24;
    var from, to := payload[|payload| - 20..|payload| - 10], payload[|payload| - 10..];
    assert bodyEnd + Padding(|p.body|) == start;
    assert Build(p) == Ok(payload)
           <==> payload[bodyEnd..start] == Zeros(start - bodyEnd) && 0 !in StripNuls(from) && 0 !in StripNuls(to) by {
      PartsOf(payload);
      Rebuilt(p, payload[bodyEnd..start], from, to, payload);
    }
    ZeroSlice(payload, bodyEnd, start);
  }

  lemma Rebuilt(p: CtpPacket, pad: bytes, from: bytes, to: bytes, payload: bytes)
    requires |p.connection| == 2 && |p.body| <= 0xFFFF && |from| == |to| == LOGADDR_LEN
    requires |pad| == Padding(|p.body|) && p.source == DecodeLogaddr(from) && p.destination == DecodeLogaddr(to)
    requires payload == Header(p.flags, p.connection, p.sequence, p.acknowledgement, |p.body|) + p.body + pad
                        + Trailer(from, to)
    ensures Build(p) == Ok(payload)
            <==> pad == Zeros(Padding(|p.body|)) && 0 !in StripNuls(from) && 0 !in StripNuls(to)
  {
    AddressFieldRoundTrip(from);
    AddressFieldRoundTrip(to);
    SamePadding(Header(p.flags, p.connection, p.sequence, p.acknowledgement, |p.body|), p.body, pad,
                Zeros(Padding(|p.body|)), Trailer(from, to));
  }

  lemma ZeroSlice(b: bytes, i: nat, j: nat)
    requires i <= j <= |b|
    ensures b[i..j] == Zeros(j - i) <==> forall k :: i <= k < j ==> b[k] == 0
  {
    var s := b[i..j];
    assert forall k :: i <= k < j ==> b[k] == s[k - i];
  }

  lemma SamePadding(head: bytes, body: bytes, pad: bytes, zeros: bytes, tail: bytes)
    requires |pad| == |zeros|
    ensures head + body + pad + tail == head + body + zeros + tail <==> pad == zeros
  {
    Layout(head, body, pad, tail);
    Layout(head, body, zeros, tail);
  }

  lemma WireLength(p: CtpPacket)
    requires Build(p).Ok?
    ensures |Build(p).value| == 32 + |p.body| + Padding(|p.body|)
  {
    BuildLayout(p);
    hide Build;
  }

  /** A built packet fits one frame just when its body is at most 65500 bytes; then it survives the whole way. */
  lemma PacketOverFrame(p: CtpPacket, handle: u16, more: bytes)
    requires Encodable(p) && Build(p).Ok?
    ensures var frame := Frames.EncodeFrame(handle, Build(p).value);
            && (frame.Ok? <==> |p.body| <= 65500)
            && (frame.Ok? ==>
                  var got := Frames.Decode(frame.value + more);
                  && got.frames != [] && got.frames[0].handle == handle
                  && ParseCtpPacket(got.frames[0].payload) == Ok(p)
                  && got.frames[1..] == Frames.Decode(more).frames && got.stop == Frames.Decode(more).stop)
  {
    hide ParseCtpPacket, Build, Encodable, Header, EncodeLogaddr;
    var wire := Build(p).value;
    ParseUndoesBuild(p);
    WireLength(p);
    if |p.body| <= 65500 {
      Frames.DecodeOne(Frames.Frame(handle, wire), more);
    }
  }

  // ---------------------------------------------------------------- INVITE bodies and ids

  datatype Invite = Invite(origin: string, destination: string, callId: bytes, tag: bytes)

  function ParseInvite(body: bytes): Result<Invite> {
    if |body| < 28 then ValueError
    else Ok(Invite(DecodeLogaddr(body[2..12]), DecodeLogaddr(body[12..22]), body[24..28],
                   if |body| >= 40 then body[38..40] else []))
  }

  /** The call id an INVITE names; an unreadable body names the empty one. */
  function InviteCallId(body: bytes): bytes {
    match ParseInvite(body)
    case Ok(invite) => invite.callId
    case ValueError => []
  }

  /** The id the peer uses for this connection: bit 15 toggled. */
  function PeerConnectionId(connection: bytes): (peer: bytes)
    requires |connection| == 2
    ensures |peer| == 2
  {
    U16Be((ReadU16Be(connection, 0) + 0x8000) % 0x1_0000)
  }

  /** Adding 0x8000 modulo 2^16 is the exclusive or with 0x8000 that the source writes. */
  lemma ToggleIsXor(v: bv16)
    ensures v + 0x8000 == v ^ 0x8000
  {
  }

  lemma PeerBytes(connection: bytes)
    requires |connection| == 2
    ensures PeerConnectionId(connection)
            == [if connection[0] < 0x80 then connection[0] + 0x80 else connection[0] - 0x80, connection[1]]
  {
    var high: int, low: int := connection[0], connection[1];
    var peer := if high < 0x80 then high + 0x80 else high - 0x80;
    assert (high * 0x100 + low + 0x8000) % 0x1_0000 == peer * 0x100 + low;
    assert (peer * 0x100 + low) / 0x100 == peer;
  }

  /** Each end's id for a connection is the other's with the top bit toggled. */
  lemma PeerInvolution(connection: bytes)
    requires |connection| == 2
    ensures var peer := PeerConnectionId(connection);
            && PeerConnectionId(peer) == connection && peer != connection
            && peer[1] == connection[1] && HasBit(peer[0], 0x80) != HasBit(connection[0], 0x80)
  {
    PeerBytes(connection);
    PeerBytes(PeerConnectionId(connection));
  }
}
