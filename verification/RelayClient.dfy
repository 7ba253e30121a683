/** One RTSP client of the relay: the clock its packets are rewritten onto (viper/rtsp.py, class _Client). */
module RelayClient {
  import opened Bytes
  import opened Rtp
  import Frames

  const PAYLOAD_TYPE: byte := 96
  const CLOCK_RATE := 90000
  const RESTART_GAP := CLOCK_RATE / 10
  const WRAP := 0x1_0000_0000

  /** What rewriting depends on: the client's own counters. */
  datatype Clock = Clock(sequence: u16, ssrc: u32, timestampOffset: Option<u32>, lastOutput: u32, generation: int)

  /** A packet with the generation of the call it came from. */
  datatype Input = Input(packet: RtpPacket, generation: int)

  /** The offset in force once `i` has been seen. */
  function Rebased(c: Clock, i: Input): u32 {
    if c.timestampOffset.None? then i.packet.timestamp
    else if i.generation != c.generation then (i.packet.timestamp - c.lastOutput as int - RESTART_GAP) % WRAP
    else c.timestampOffset.value
  }

  function OutputTime(c: Clock, i: Input): u32 {
    (i.packet.timestamp - Rebased(c, i) as int) % WRAP
  }

  function Next(c: Clock, i: Input): Clock {
    Clock((c.sequence + 1) % 0x1_0000, c.ssrc, Some(Rebased(c, i)), OutputTime(c, i), i.generation)
  }

  /** The packet a client is sent in place of `i`. */
  function Rewritten(c: Clock, i: Input): RtpPacket {
    RtpPacket(i.packet.marker, PAYLOAD_TYPE, c.sequence, OutputTime(c, i), c.ssrc, i.packet.payload)
  }

  lemma Interleaved(sent: RtpPacket, channel: byte, rtp: bytes)
    requires sent.payloadType == PAYLOAD_TYPE && |sent.payload| <= 0xFFFF - 12
    requires rtp == [0x80, (if sent.marker then 0x80 else 0) + PAYLOAD_TYPE]
                    + U16Be(sent.sequence) + U32Be(sent.timestamp) + U32Be(sent.ssrc) + sent.payload
    ensures |rtp| == 12 + |sent.payload|
    ensures var frame := [0x24, channel] + U16Be(|rtp|) + rtp;
            && |frame| == 16 + |sent.payload| && frame[..4] == [0x24, channel] + U16Be(|rtp|)
            && ParseRtpPacket(frame[4..]) == Ok(sent)
  {
    var plain := Extras([], None, []);
    assert rtp == FixedHeader(sent, FirstByte(plain)) + sent.payload;
    assert rtp == EncodeRtp(sent, plain);
    ParseUndoesEncode(sent, plain);
    var frame := [0x24, channel] + U16Be(|rtp|) + rtp;
    assert frame[4..] == rtp;
  }

  class Client {
    const interleaved: (byte, byte)
    var playing: bool
    var gone: bool
    var sequence: u16
    const ssrc: u32
    var timestampOffset: Option<u32>
    var lastOutput: u32
    var generation: int

    ghost function View(): Clock
      reads this
    {
      Clock(sequence, ssrc, timestampOffset, lastOutput, generation)
    }

    /** The random first sequence number and SSRC are arguments. */
    constructor (channels: (byte, byte), sequence: u16, ssrc: u32)
      ensures View() == Clock(sequence, ssrc, None, 0, -1)
      ensures interleaved == channels && !playing && !gone
    {
      interleaved := channels;
      playing, gone := false, false;
      this.sequence, this.ssrc := sequence, ssrc;
      timestampOffset, lastOutput, generation := None, 0, -1;
    }

    /** Packing the 16-bit length fails on a payload that is too long, after the counters have moved. */
    method RtpFrame(packet: RtpPacket, generation: int) returns (frame: Result<bytes>)
      modifies this`sequence, this`timestampOffset, this`lastOutput, this`generation
      ensures View() == Next(old(View()), Input(packet, generation))
      ensures frame.Ok? <==> |packet.payload| <= 0xFFFF - 12
      ensures frame.Ok? ==>
                && |frame.value| == 16 + |packet.payload|
                && frame.value[..4] == [0x24, interleaved.0] + U16Be(12 + |packet.payload|)
                && ParseRtpPacket(frame.value[4..]) == Ok(Rewritten(old(View()), Input(packet, generation)))
    {
      if timestampOffset.None? {
        this.generation := generation;
        timestampOffset := Some(packet.timestamp);
      } else if generation != this.generation {
        this.generation := generation;
        timestampOffset := Some((packet.timestamp - lastOutput as int - RESTART_GAP) % WRAP);
      }
      var timestamp: u32 := (packet.timestamp - timestampOffset.value as int) % WRAP;
      lastOutput := timestamp;
      var header: bytes := [0x80, (if packet.marker then 0x80 else 0) + PAYLOAD_TYPE]
                           + U16Be(sequence) + U32Be(timestamp) + U32Be(ssrc);
      sequence := (sequence + 1) % 0x1_0000;
      var rtp := header + packet.payload;
      if |rtp| > 0xFFFF {
        return ValueError;
      }
      frame := Ok([0x24, interleaved.0] + U16Be(|rtp|) + rtp);
      ghost var sent := Rewritten(old(View()), Input(packet, generation));
      assert sent == RtpPacket(packet.marker, PAYLOAD_TYPE, old(sequence), timestamp, ssrc, packet.payload);
      Interleaved(sent, interleaved.0, rtp);
    }

    /** Start playing; what the reply's RTP-Info announces. */
    method Play() returns (seqno: u16, rtptime: u32)
      modifies this`playing
      ensures playing && seqno == sequence && rtptime == 0
    {
      playing := true;
      return sequence, 0;
    }
  }

  // ---------------------------------------------------------------- the unbounded clock

  function After(c: Clock, ins: seq<Input>): Clock {
    if ins == [] then c else Next(After(c, ins[..|ins| - 1]), ins[|ins| - 1])
  }

  /** Time elapsed up to the last packet, on a clock that never wraps and is never rebased. */
  function Elapsed(ins: seq<Input>): int {
    if |ins| < 2 then 0
    else
      var last, previous := ins[|ins| - 1], ins[|ins| - 2];
      Elapsed(ins[..|ins| - 1]) +
      if last.generation == previous.generation then last.packet.timestamp as int - previous.packet.timestamp as int
      else 9000
  }

  lemma ModSub(a: int, b: int, c: int)
    ensures (a - (b - c) % WRAP) % WRAP == (a - b + c) % WRAP
  {
    var q := (b - c) / WRAP;
    assert b - c == q * WRAP + (b - c) % WRAP;
    ModShift(a - b + c, q);
  }

  lemma ModShift(a: int, q: int)
    ensures (a + q * WRAP) % WRAP == a % WRAP
  {
  }

  /** The offset is what the last input was ahead of the unbounded clock, so it need never be unbounded itself. */
  lemma {:induction false} OffsetTracksElapsed(c: Clock, ins: seq<Input>)
    requires c.timestampOffset.None? && ins != []
    ensures var end := After(c, ins);
            && end.timestampOffset == Some((ins[|ins| - 1].packet.timestamp - Elapsed(ins)) % WRAP)
            && end.generation == ins[|ins| - 1].generation
            && end.lastOutput == Elapsed(ins) % WRAP
  {
    var n := |ins|;
    var last := ins[n - 1];
    if n == 1 {
      assert ins[..0] == [];
      assert last.packet.timestamp as int % WRAP == last.packet.timestamp;
    } else {
      var before := After(c, ins[..n - 1]);
      var previous := ins[n - 2];
      OffsetTracksElapsed(c, ins[..n - 1]);
      assert ins[..n - 1][n - 2] == previous;
      var was := Elapsed(ins[..n - 1]);
      StepTracksElapsed(last.packet.timestamp, previous.packet.timestamp, was);
    }
  }

  /** The two ways the offset moves on, by one packet `ts` after one at `pts`, `was` on the unbounded clock. */
  lemma StepTracksElapsed(ts: int, pts: int, was: int)
    ensures (ts - (pts - was) % WRAP) % WRAP == (was + (ts - pts)) % WRAP
    ensures (pts - was) % WRAP == (ts - (was + (ts - pts))) % WRAP
    ensures (ts - was % WRAP - RESTART_GAP) % WRAP == (ts - (was + RESTART_GAP)) % WRAP
    ensures (ts - (ts - was % WRAP - RESTART_GAP) % WRAP) % WRAP == (was + RESTART_GAP) % WRAP
  {
    ModSub(ts, pts, was);
    assert pts - was == ts - (was + (ts - pts));
    ModSub(ts - RESTART_GAP, was, 0);
    ModSub(ts, ts, was + RESTART_GAP);
  }

  /** For any packets over any number of call restarts: the n-th frame carries the unbounded clock's time modulo
      2^32, the n-th sequence number modulo 2^16, and always the same SSRC. */
  lemma ClockRefinesUnbounded(c: Clock, ins: seq<Input>, n: nat)
    requires c.timestampOffset.None? && n < |ins|
    ensures var sent := Rewritten(After(c, ins[..n]), ins[n]);
            && sent.timestamp == Elapsed(ins[..n + 1]) % 0x1_0000_0000
            && sent.sequence == (c.sequence + n) % 0x1_0000
            && sent.ssrc == c.ssrc && sent.payloadType == 96
            && sent.payload == ins[n].packet.payload && sent.marker == ins[n].packet.marker
  {
    assert ins[..n + 1][..n] == ins[..n];
    OffsetTracksElapsed(c, ins[..n + 1]);
    Counters(c, ins[..n]);
  }

  lemma {:induction false} Counters(c: Clock, ins: seq<Input>)
    ensures After(c, ins).ssrc == c.ssrc && After(c, ins).sequence == (c.sequence + |ins|) % 0x1_0000
  {
    if ins == [] {
      assert c.sequence as int % 0x1_0000 == c.sequence;
    } else {
      Counters(c, ins[..|ins| - 1]);
      CountOn(c.sequence, |ins| - 1);
    }
  }

  lemma CountOn(a: int, n: int)
    ensures ((a + n) % 0x1_0000 + 1) % 0x1_0000 == (a + n + 1) % 0x1_0000
  {
  }

  /** RTP-Info's rtptime of zero is the next frame's timestamp whatever that frame is, just when none was sent yet;
      its sequence number always is. */
  lemma AnnouncedStart(c: Clock)
    ensures (forall i :: Rewritten(c, i).timestamp == 0) <==> c.timestampOffset.None?
    ensures forall i :: Rewritten(c, i).sequence == c.sequence
  {
    if c.timestampOffset.Some? {
      var late: u32 := (c.timestampOffset.value + 1) % WRAP;
      var i := Input(RtpPacket(false, 0, 0, late, 0, []), c.generation);
      assert Rewritten(c, i).timestamp != 0;
    }
  }

  /** Whatever bytes the panel sends, no packet the reader cuts out of them is too long once rewritten. */
  lemma {:induction false} PanelPacketsFit(stream: bytes, k: nat)
    requires k < |Frames.Decode(stream).frames|
    requires ParseRtpPacket(Frames.Decode(stream).frames[k].payload).Ok?
    ensures |ParseRtpPacket(Frames.Decode(stream).frames[k].payload).value.payload| <= 0xFFFF - 12
    decreases |stream|
  {
    var (length, _) := Frames.ParseHeader(stream[..Frames.HEADER_LEN]).value;
    if k > 0 {
      PanelPacketsFit(stream[Frames.HEADER_LEN + length..], k - 1);
    }
  }
}
