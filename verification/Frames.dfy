/** Wire framing and channel management (viper/frames.py), and the reader that cuts the TCP stream into frames. */
module Frames {
  import opened Bytes

  const HEADER_MAGIC: bytes := [0x00, 0x06]
  const HEADER_LEN := 8
  const OPEN_MAGIC: bytes := [0xCD, 0xAB, 0x01, 0x00]
  const OPENACK_MAGIC: bytes := [0xCD, 0xAB, 0x02, 0x00]
  const CLOSE_MAGIC: bytes := [0xEF, 0x01, 0x03, 0x00]
  const CHANNEL_TYPE: u32 := 7

  datatype Frame = Frame(handle: u16, payload: bytes)

  function EncodeFrame(handle: u16, payload: bytes): Result<bytes> {
    if |payload| > 0xFFFF then ValueError
    else Ok(HEADER_MAGIC + U16Le(|payload|) + U16Le(handle) + [0, 0] + payload)
  }

  /** The payload length and the handle of a frame header. */
  function ParseHeader(header: bytes): Result<(u16, u16)> {
    if |header| != HEADER_LEN || header[..2] != HEADER_MAGIC then ValueError
    else Ok((ReadU16Le(header, 2), ReadU16Le(header, 4)))
  }

  // ---------------------------------------------------------------- the stream

  /** Why the read loop stopped: the stream ended inside a frame (or between two), or a header was not one. */
  datatype Stop = EndOfStream | BadHeader

  datatype Decoded = Decoded(frames: seq<Frame>, stop: Stop)

  /** What the read loop hands on from a stream that ends after `stream`. */
  function Decode(stream: bytes): Decoded
    decreases |stream|
  {
    if |stream| < HEADER_LEN then Decoded([], EndOfStream)
    else match ParseHeader(stream[..HEADER_LEN])
      case ValueError => Decoded([], BadHeader)
      case Ok((length, handle)) =>
        if |stream| < HEADER_LEN + length then Decoded([], EndOfStream)
        else
          var rest := Decode(stream[HEADER_LEN + length..]);
          rest.(frames := [Frame(handle, stream[HEADER_LEN..HEADER_LEN + length])] + rest.frames)
  }

  /** `d`, with the frames already handed on in front. */
  function Later(frames: seq<Frame>, d: Decoded): Decoded {
    d.(frames := frames + d.frames)
  }

  lemma LaterFrame(frames: seq<Frame>, f: Frame, d: Decoded)
    ensures Later(frames, Later([f], d)) == Later(frames + [f], d)
  {
    assert frames + ([f] + d.frames) == frames + [f] + d.frames;
  }

  /** What the read loop does with the stream from `at` on. */
  lemma DecodeFrom(stream: bytes, at: nat)
    requires at <= |stream|
    ensures var left := stream[at..];
            && (|left| < HEADER_LEN ==> Decode(left) == Decoded([], EndOfStream))
            && (|left| >= HEADER_LEN ==>
                  match ParseHeader(stream[at..at + HEADER_LEN])
                  case ValueError => Decode(left) == Decoded([], BadHeader)
                  case Ok((length, handle)) =>
                    var body := at + HEADER_LEN;
                    if |left| < HEADER_LEN + length then Decode(left) == Decoded([], EndOfStream)
                    else Decode(left) == Later([Frame(handle, stream[body..body + length])],
                                               Decode(stream[body + length..])))
  {
    var left := stream[at..];
    if |left| >= HEADER_LEN {
      assert left[..HEADER_LEN] == stream[at..at + HEADER_LEN];
      match ParseHeader(left[..HEADER_LEN])
      case ValueError =>
      case Ok((length, handle)) =>
        if |left| >= HEADER_LEN + length {
          var body := at + HEADER_LEN;
          assert left[HEADER_LEN..HEADER_LEN + length] == stream[body..body + length];
          assert left[HEADER_LEN + length..] == stream[body + length..];
        }
    }
  }

  /** The loop of `_read_loop`: a header, then as many bytes as it announces, until the stream runs out. */
  method ReadLoop(stream: bytes) returns (frames: seq<Frame>, stop: Stop)
    ensures Decoded(frames, stop) == Decode(stream)
  {
    hide Decode;
    frames := [];
    var at := 0;
    assert stream[0..] == stream;
    while true
      invariant 0 <= at <= |stream|
      invariant Decode(stream) == Later(frames, Decode(stream[at..]))
      decreases |stream| - at
    {
      DecodeFrom(stream, at);
      if |stream| - at < HEADER_LEN {
        return frames, EndOfStream;
      }
      match ParseHeader(stream[at..at + HEADER_LEN])
      case ValueError =>
        return frames, BadHeader;
      case Ok((length, handle)) =>
        at := at + HEADER_LEN;
        if |stream| - at < length {
          return frames, EndOfStream;
        }
        var frame := Frame(handle, stream[at..at + length]);
        LaterFrame(frames, frame, Decode(stream[at + length..]));
        frames := frames + [frame];
        at := at + length;
    }
  }

  predicate Encodable(f: Frame) {
    |f.payload| <= 0xFFFF
  }

  predicate AllEncodable(fs: seq<Frame>) {
    forall i :: 0 <= i < |fs| ==> Encodable(fs[i])
  }

  /** The bytes of a sequence of frames, back to back. */
  function EncodeAll(fs: seq<Frame>): bytes
    requires AllEncodable(fs)
  {
    if fs == [] then [] else EncodeFrame(fs[0].handle, fs[0].payload).value + EncodeAll(fs[1..])
  }

  lemma DecodeOne(f: Frame, more: bytes)
    requires Encodable(f)
    ensures var wire := EncodeFrame(f.handle, f.payload).value;
            && |wire| == HEADER_LEN + |f.payload|
            && Decode(wire + more) == Decode(more).(frames := [f] + Decode(more).frames)
  {
    var wire := EncodeFrame(f.handle, f.payload).value;
    var stream := wire + more;
    assert stream[..HEADER_LEN] == HEADER_MAGIC + U16Le(|f.payload|) + U16Le(f.handle) + [0, 0];
    assert ParseHeader(stream[..HEADER_LEN]) == Ok((|f.payload|, f.handle));
    assert stream[HEADER_LEN..HEADER_LEN + |f.payload|] == f.payload;
    assert stream[HEADER_LEN + |f.payload|..] == more;
  }

  /** Cut inside one frame, the reader hands on nothing of it and asks for more. */
  lemma DecodePartial(f: Frame, n: nat)
    requires Encodable(f)
    requires n < HEADER_LEN + |f.payload|
    ensures n <= |EncodeFrame(f.handle, f.payload).value|
    ensures Decode(EncodeFrame(f.handle, f.payload).value[..n]) == Decoded([], EndOfStream)
  {
    var wire := EncodeFrame(f.handle, f.payload).value;
    if HEADER_LEN <= n {
      assert wire[..n][..HEADER_LEN] == HEADER_MAGIC + U16Le(|f.payload|) + U16Le(f.handle) + [0, 0];
    }
  }

  /** How many of `fs` lie wholly within the first `n` bytes of their encoding. */
  function Whole(fs: seq<Frame>, n: nat): (k: nat)
    requires AllEncodable(fs)
    ensures k <= |fs|
  {
    if fs == [] || n < HEADER_LEN + |fs[0].payload| then 0
    else 1 + Whole(fs[1..], n - HEADER_LEN - |fs[0].payload|)
  }

  /** `Whole` is the largest number of frames that fit. */
  lemma {:induction false} WholeIsLargest(fs: seq<Frame>, n: nat)
    requires AllEncodable(fs)
    ensures |EncodeAll(fs[..Whole(fs, n)])| <= n
    ensures Whole(fs, n) < |fs| ==> n < |EncodeAll(fs[..Whole(fs, n) + 1])|
  {
    if fs != [] {
      DecodeOne(fs[0], []);
      assert fs[..1][1..] == [];
      if HEADER_LEN + |fs[0].payload| <= n {
        var m := n - HEADER_LEN - |fs[0].payload|;
        WholeIsLargest(fs[1..], m);
        assert fs[..Whole(fs, n)][1..] == fs[1..][..Whole(fs[1..], m)];
        if Whole(fs, n) < |fs| {
          assert fs[..Whole(fs, n) + 1][1..] == fs[1..][..Whole(fs[1..], m) + 1];
        }
      }
    }
  }

  /** Wherever the stream is cut, the reader has handed on exactly the frames that arrived whole. */
  lemma {:induction false} StreamRoundTrip(fs: seq<Frame>, n: nat)
    requires AllEncodable(fs)
    requires n <= |EncodeAll(fs)|
    ensures Decode(EncodeAll(fs)[..n]) == Decoded(fs[..Whole(fs, n)], EndOfStream)
  {
    if fs != [] {
      var wire, rest := EncodeFrame(fs[0].handle, fs[0].payload).value, EncodeAll(fs[1..]);
      assert |wire| == HEADER_LEN + |fs[0].payload|;
      if n < |wire| {
        assert (wire + rest)[..n] == wire[..n];
        DecodePartial(fs[0], n);
      } else {
        var m := n - |wire|;
        assert (wire + rest)[..n] == wire + rest[..m];
        assert Decode(rest[..m]) == Decoded(fs[1..][..Whole(fs[1..], m)], EndOfStream) by {
          StreamRoundTrip(fs[1..], m);
        }
        assert Decode(wire + rest[..m]) == Later([fs[0]], Decode(rest[..m])) by {
          DecodeOne(fs[0], rest[..m]);
        }
        FirstAndMore(fs, Whole(fs[1..], m));
      }
    }
  }

  lemma FirstAndMore(fs: seq<Frame>, k: nat)
    requires fs != [] && k < |fs|
    ensures [fs[0]] + fs[1..][..k] == fs[..k + 1]
  {
  }

  // ---------------------------------------------------------------- management

  predicate Ascii(s: string) {
    forall i :: 0 <= i < |s| ==> s[i] as int < 0x80
  }

  function AsciiBytes(s: string): (b: bytes)
    requires Ascii(s)
    ensures |b| == |s|
  {
    seq(|s|, i requires 0 <= i < |s| => s[i] as int)
  }

  /** bytes.decode("ascii", "replace") */
  function AsciiText(b: bytes): (s: string)
    ensures |s| == |b|
  {
    seq(|b|, i requires 0 <= i < |b| => if b[i] < 0x80 then b[i] as char else '\U{FFFD}')
  }

  function EncodeOpenChannel(name: string, handle: u16, registration: bytes): Result<bytes>
    requires |registration| < 0x1_0000_0000
  {
    if |name| != 4 || !Ascii(name) then ValueError
    else
      Ok(OPEN_MAGIC + U32Le(CHANNEL_TYPE) + AsciiBytes(name) + U16Le(handle) + [0] +
         if registration == [] then [] else [0] + U32Le(|registration|) + registration)
  }

  function EncodeCloseChannel(handle: u16): bytes {
    CLOSE_MAGIC + U32Le(2) + U16Le(handle)
  }

  function EncodeOpenAck(handle: u16): bytes {
    OPENACK_MAGIC + U32Le(4) + U16Le(handle) + [0, 0]
  }

  lemma CloseBytes(handle: u16)
    ensures EncodeCloseChannel(handle)
            == [0xEF, 0x01, 0x03, 0x00, 0x02, 0x00, 0x00, 0x00, handle % 0x100, handle / 0x100]
  {
  }

  datatype Mgmt = Mgmt(magic: bytes, handle: u16, name: Option<string>)

  function ParseMgmt(payload: bytes): Result<Mgmt> {
    if |payload| < 10 then ValueError
    else if payload[..4] == OPEN_MAGIC then
      if |payload| < 15 then ValueError
      else Ok(Mgmt(OPEN_MAGIC, ReadU16Le(payload, 12), Some(AsciiText(payload[8..12]))))
    else Ok(Mgmt(payload[..4], ReadU16Le(payload, 8), None))
  }

  /** What one end writes on the management channel, the other reads back. */
  lemma MgmtRoundTrip(name: string, handle: u16, registration: bytes)
    requires |registration| < 0x1_0000_0000
    ensures var open := EncodeOpenChannel(name, handle, registration);
            && (open.Ok? <==> |name| == 4 && Ascii(name))
            && (open.Ok? ==> ParseMgmt(open.value) == Ok(Mgmt(OPEN_MAGIC, handle, Some(name))))
    ensures ParseMgmt(EncodeCloseChannel(handle)) == Ok(Mgmt(CLOSE_MAGIC, handle, None))
    ensures ParseMgmt(EncodeOpenAck(handle)) == Ok(Mgmt(OPENACK_MAGIC, handle, None))
  {
    var open := EncodeOpenChannel(name, handle, registration);
    if open.Ok? {
      assert open.value[..4] == OPEN_MAGIC;
      assert open.value[8..12] == AsciiBytes(name);
      assert AsciiText(AsciiBytes(name)) == name;
      assert open.value[12] == U16Le(handle)[0] && open.value[13] == U16Le(handle)[1];
    }
    assert EncodeCloseChannel(handle)[..4] == CLOSE_MAGIC;
    assert EncodeOpenAck(handle)[..4] == OPENACK_MAGIC;
  }
}
