/** What the bytes on the wire are, field by field (viper/frames.py, viper/ctp.py, viper/call.py, viper/rtp.py). */
module Wire {
  import opened Bytes
  import opened Ctp
  import Frames
  import Calls
  import Rtp

  /** A frame: 00 06, length and handle with the low byte first, 00 00, and the payload. */
  lemma FrameBytes(handle: u16, payload: bytes)
    ensures Frames.EncodeFrame(handle, payload)
            == if |payload| > 65535 then ValueError
               else
                 var n := |payload|;
                 Ok([0x00, 0x06, n % 0x100, n / 0x100, handle % 0x100, handle / 0x100, 0x00, 0x00] + payload)
  {
    if |payload| <= 65535 {
      var n := |payload|;
      assert [0x00, 0x06] + U16Le(n) + U16Le(handle) + [0, 0]
             == [0x00, 0x06, n % 0x100, n / 0x100, handle % 0x100, handle / 0x100, 0x00, 0x00];
    }
  }

  lemma HeaderBytes(header: bytes)
    ensures Frames.ParseHeader(header)
            == if |header| != 8 || header[0] != 0x00 || header[1] != 0x06 then ValueError
               else Ok((header[2] as int + 0x100 * header[3] as int, header[4] as int + 0x100 * header[5] as int))
  {
    if |header| == 8 {
      assert header[..2] == [header[0], header[1]];
    }
  }

  /** A request to open a channel, with the length of what it registers, if it does, with the low byte first. */
  lemma OpenBytes(name: string, handle: u16, registration: bytes)
    requires |name| == 4 && Frames.Ascii(name) && |registration| < 0x100
    ensures var open := [0xCD, 0xAB, 0x01, 0x00, 7, 0, 0, 0, name[0] as int, name[1] as int, name[2] as int,
                         name[3] as int, handle % 0x100, handle / 0x100, 0];
            Frames.EncodeOpenChannel(name, handle, registration)
            == Ok(if registration == [] then open else open + [0, |registration|, 0, 0, 0] + registration)
  {
    var open: bytes := [0xCD, 0xAB, 0x01, 0x00, 7, 0, 0, 0, name[0] as int, name[1] as int, name[2] as int,
                        name[3] as int, handle % 0x100, handle / 0x100, 0];
    assert U32Le(|registration|) == [|registration|, 0, 0, 0];
    assert Frames.OPEN_MAGIC + U32Le(7) + Frames.AsciiBytes(name) + U16Le(handle) + [0] == open;
    assert open + [] == open;
    assert open + ([0] + [|registration|, 0, 0, 0] + registration)
           == open + [0, |registration|, 0, 0, 0] + registration;
  }

  lemma AckBytes(handle: u16)
    ensures Frames.EncodeOpenAck(handle)
            == [0xCD, 0xAB, 0x02, 0x00, 4, 0, 0, 0, handle % 0x100, handle / 0x100, 0, 0]
  {
  }

  /** An address: its characters, and zeros up to ten bytes. */
  lemma AddressBytes(s: string)
    requires Address(s)
    ensures EncodeLogaddr(s).Ok? && |EncodeLogaddr(s).value| == 10
    ensures forall i :: 0 <= i < 10 ==> EncodeLogaddr(s).value[i] == if i < |s| then s[i] as int else 0
  {
  }

  /** A packet: flags, 18, connection, sequence and acknowledgement, length with the high byte first; the body, zeros up
      to a multiple of four; FF FF FF FF, and the addresses of source and destination. */
  lemma PacketBytes(p: CtpPacket)
    requires Encodable(p)
    ensures var n := |p.body|;
            Build(p) == Ok([p.flags, 0x18, p.connection[0], p.connection[1], p.sequence, p.acknowledgement,
                            n / 0x100, n % 0x100]
                           + p.body + [0, 0, 0][..(4 - n % 4) % 4] + [0xFF, 0xFF, 0xFF, 0xFF]
                           + EncodeLogaddr(p.source).value + EncodeLogaddr(p.destination).value)
  {
    var n := |p.body|;
    assert Zeros(Padding(n)) == [0, 0, 0][..(4 - n % 4) % 4];
    assert Header(p.flags, p.connection, p.sequence, p.acknowledgement, n)
           == [p.flags, 0x18, p.connection[0], p.connection[1], p.sequence, p.acknowledgement, n / 0x100, n % 0x100];
    Regroup(Header(p.flags, p.connection, p.sequence, p.acknowledgement, n) + p.body + Zeros(Padding(n)),
            TRAILER_MARKER, EncodeLogaddr(p.source).value, EncodeLogaddr(p.destination).value);
  }

  lemma Regroup(a: bytes, b: bytes, c: bytes, d: bytes)
    ensures a + (b + c + d) == a + b + c + d
  {
  }

  /** What is read of a packet: its kind by the flags, its opcode, and the cause of a RELEASE. */
  lemma KindBytes(p: CtpPacket)
    ensures p.IsSyn() <==> p.flags >= 0x80
    ensures p.IsFin() <==> (p.flags / 0x20) % 2 == 1
    ensures p.Opcode() == if |p.body| < 2 then None else Some(p.body[0] as int * 0x100 + p.body[1] as int)
    ensures p.ReleaseCause()
            == if |p.body| >= 3 && p.body[0] == 0x00 && p.body[1] == 0x0E then Some(p.body[2]) else None
  {
  }

  /** The body of an INVITE, as a call begins with one: opcode, origin, destination, 01 20, call id, origin again, tag.
      */
  function InviteBody(origin: string, destination: string, callId: bytes, tag: bytes): bytes
    requires Address(origin) && Address(destination)
  {
    [0x00, 0x01] + EncodeLogaddr(origin).value + EncodeLogaddr(destination).value + [0x01, 0x20] + callId
    + EncodeLogaddr(origin).value + tag
  }

  /** It is read back field by field; and whoever rings with it is reported under the packet's own addresses and
      connection, from the origin its body names. */
  lemma InviteBytes(origin: string, destination: string, callId: bytes, tag: bytes, p: CtpPacket)
    requires Address(origin) && Address(destination) && |callId| == 4 && |tag| == 2
    requires p.body == InviteBody(origin, destination, callId, tag)
    ensures ParseInvite(p.body) == Ok(Invite(origin, destination, callId, tag))
    ensures Calls.RingEventOf(p)
            == Calls.RingEvent(p.source, p.destination, p.connection, callId, p.body, origin, tag)
  {
    var from, to := EncodeLogaddr(origin).value, EncodeLogaddr(destination).value;
    assert p.body[2..12] == from && p.body[12..22] == to && p.body[24..28] == callId && p.body[38..40] == tag;
    AddressRoundTrip(origin);
    AddressRoundTrip(destination);
    hide DecodeLogaddr, EncodeLogaddr;
  }

  /** An INVITE that is too short is reported all the same, with nothing known of what its body says. */
  lemma ShortInvite(p: CtpPacket)
    ensures ParseInvite(p.body).Ok? <==> |p.body| >= 28
    ensures |p.body| < 28 ==>
              Calls.RingEventOf(p) == Calls.RingEvent(p.source, p.destination, p.connection, [], p.body, "", [])
    ensures |p.body| < 40 ==> Calls.RingEventOf(p).tag == []
  {
    hide DecodeLogaddr;
  }

  /** The first twelve bytes of an RTP packet: version 2, padding, extension and how many CSRCs; marker and type;
      sequence number, timestamp and SSRC, each high byte first. */
  lemma RtpBytes(p: Rtp.RtpPacket, x: Rtp.Extras)
    requires Rtp.Legal(p, x)
    ensures var b := Rtp.EncodeRtp(p, x);
            |b| >= 12 &&
            b[..12] == [0x80 + (if x.padding == [] then 0 else 0x20) + (if x.extension.None? then 0 else 0x10)
                        + |x.csrcs|,
                        (if p.marker then 0x80 else 0) + p.payloadType,
                        p.sequence / 0x100, p.sequence % 0x100,
                        p.timestamp / 0x100_0000, p.timestamp / 0x1_0000 % 0x100, p.timestamp / 0x100 % 0x100,
                        p.timestamp % 0x100,
                        p.ssrc / 0x100_0000, p.ssrc / 0x1_0000 % 0x100, p.ssrc / 0x100 % 0x100, p.ssrc % 0x100]
  {
    var head := Rtp.FixedHeader(p, Rtp.FirstByte(x));
    assert Rtp.EncodeRtp(p, x)[..12] == head;
  }
}
