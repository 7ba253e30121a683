/** RTP parsing (viper/rtp.py), against an encoder written from sections 5.1 and 5.3.1 of RFC 3550. */
module Rtp {
  import opened Bytes

  datatype RtpPacket = RtpPacket(
    marker: bool,
    payloadType: byte,
    sequence: u16,
    timestamp: u32,
    ssrc: u32,
    payload: bytes)

  function ParseRtpPacket(raw: bytes): Result<RtpPacket> {
    if |raw| < 12 || raw[0] / 0x40 != 2 then ValueError
    else
      var base := 12 + raw[0] % 0x10 * 4;
      if base > |raw| then ValueError
      else if HasBit(raw[0], 0x10) then
        if base + 4 > |raw| then ValueError
        else
          var offset := base + 4 + ReadU16Be(raw, base + 2) as int * 4;
          if offset > |raw| then ValueError else ParsePayload(raw, offset)
      else ParsePayload(raw, base)
  }

  /** Everything after the headers, with the padding taken off the end. */
  function ParsePayload(raw: bytes, offset: nat): (r: Result<RtpPacket>)
    requires 12 <= offset <= |raw|
    ensures r.Ok? ==> |r.value.payload| <= |raw| - 12
  {
    var end := |raw|;
    var padding := if HasBit(raw[0], 0x20) then raw[end - 1] as int else 0;
    if HasBit(raw[0], 0x20) && (padding == 0 || padding > end - offset) then ValueError
    else
      Ok(RtpPacket(HasBit(raw[1], 0x80), raw[1] % 0x80, ReadU16Be(raw, 2), ReadU32Be(raw, 4), ReadU32Be(raw, 8),
                   raw[offset..end - padding]))
  }

  // ---------------------------------------------------------------- the format

  /** Everything RFC 3550 lets a packet carry beside the fields the client keeps. */
  datatype Extras = Extras(csrcs: seq<u32>, extension: Option<Extension>, padding: bytes)
  datatype Extension = Extension(profile: u16, words: seq<u32>)

  predicate Legal(p: RtpPacket, x: Extras) {
    && p.payloadType < 0x80
    && |x.csrcs| < 0x10
    && (x.extension.Some? ==> |x.extension.value.words| < 0x1_0000)
    && |x.padding| < 0x100
    && (x.padding != [] ==> x.padding[|x.padding| - 1] == |x.padding|)
  }

  function Words(ws: seq<u32>): (b: bytes)
    ensures |b| == 4 * |ws|
  {
    if ws == [] then [] else U32Be(ws[0]) + Words(ws[1..])
  }

  function FirstByte(x: Extras): byte
    requires |x.csrcs| < 0x10
  {
    0x80 + (if x.padding != [] then 0x20 else 0) + (if x.extension.Some? then 0x10 else 0) + |x.csrcs|
  }

  function ExtensionBytes(e: Option<Extension>): bytes
    requires e.Some? ==> |e.value.words| < 0x1_0000
  {
    if e.None? then [] else U16Be(e.value.profile) + U16Be(|e.value.words|) + Words(e.value.words)
  }

  function FixedHeader(p: RtpPacket, first: byte): (b: bytes)
    requires p.payloadType < 0x80
    ensures |b| == 12
  {
    [first, (if p.marker then 0x80 else 0) + p.payloadType] + U16Be(p.sequence) + U32Be(p.timestamp) + U32Be(p.ssrc)
  }

  function EncodeRtp(p: RtpPacket, x: Extras): bytes
    requires Legal(p, x)
  {
    FixedHeader(p, FirstByte(x)) + Words(x.csrcs) + ExtensionBytes(x.extension) + p.payload + x.padding
  }

  lemma FixedHeaderFields(p: RtpPacket, first: byte, rest: bytes)
    requires p.payloadType < 0x80
    ensures var raw := FixedHeader(p, first) + rest;
            && raw[0] == first && HasBit(raw[1], 0x80) == p.marker && raw[1] % 0x80 == p.payloadType
            && ReadU16Be(raw, 2) == p.sequence && ReadU32Be(raw, 4) == p.timestamp && ReadU32Be(raw, 8) == p.ssrc
  {
    var raw := FixedHeader(p, first) + rest;
    assert raw[2..4] == U16Be(p.sequence);
    assert raw[2] == raw[2..4][0] && raw[3] == raw[2..4][1];
    assert raw[4..8] == U32Be(p.timestamp);
    assert ReadU32Be(raw, 4) == ReadU32Be(raw[4..8], 0);
    U32RoundTrip(p.timestamp);
    assert raw[8..12] == U32Be(p.ssrc);
    assert ReadU32Be(raw, 8) == ReadU32Be(raw[8..12], 0);
    U32RoundTrip(p.ssrc);
  }

  lemma FirstByteBits(x: Extras)
    requires |x.csrcs| < 0x10
    ensures var first := FirstByte(x);
            && first / 0x40 == 2 && first % 0x10 == |x.csrcs|
            && (HasBit(first, 0x10) <==> x.extension.Some?) && (HasBit(first, 0x20) <==> x.padding != [])
  {
  }

  /** Where the pieces of a five-part concatenation lie. */
  lemma Slices(h: bytes, c: bytes, e: bytes, p: bytes, x: bytes)
    ensures var raw := h + c + e + p + x;
            var i, j := |h| + |c|, |h| + |c| + |e|;
            && raw[..|h|] == h && raw[|h|..i] == c && raw[i..j] == e && raw[j..|raw| - |x|] == p
            && raw[|raw| - |x|..] == x
  {
  }

  /** Whatever contributing sources, extension and padding surround a payload, the parser recovers it. */
  lemma ParseUndoesEncode(p: RtpPacket, x: Extras)
    requires Legal(p, x)
    ensures ParseRtpPacket(EncodeRtp(p, x)) == Ok(p)
  {
    var head, csrcs, ext := FixedHeader(p, FirstByte(x)), Words(x.csrcs), ExtensionBytes(x.extension);
    var raw := EncodeRtp(p, x);
    var base, offset, end := 12 + |csrcs|, 12 + |csrcs| + |ext|, |raw| - |x.padding|;
    assert raw[base..offset] == ext && raw[offset..end] == p.payload && raw[end..] == x.padding by {
      Slices(head, csrcs, ext, p.payload, x.padding);
    }
    assert raw[0] == FirstByte(x) && HasBit(raw[1], 0x80) == p.marker && raw[1] % 0x80 == p.payloadType
           && ReadU16Be(raw, 2) == p.sequence && ReadU32Be(raw, 4) == p.timestamp && ReadU32Be(raw, 8) == p.ssrc by {
      assert raw == head + raw[12..];
      FixedHeaderFields(p, FirstByte(x), raw[12..]);
    }
    assert ParseRtpPacket(raw) == ParsePayload(raw, offset) by {
      HeadersSkipped(raw, x, base, offset);
    }
    FirstByteBits(x);
    assert x.padding != [] ==> raw[|raw| - 1] == |x.padding|;
  }

  lemma HeadersSkipped(raw: bytes, x: Extras, base: nat, offset: nat)
    requires |x.csrcs| < 0x10 && (x.extension.Some? ==> |x.extension.value.words| < 0x1_0000)
    requires base == 12 + 4 * |x.csrcs| && base <= offset <= |raw| && raw[0] == FirstByte(x)
    requires raw[base..offset] == ExtensionBytes(x.extension)
    ensures ParseRtpPacket(raw) == ParsePayload(raw, offset)
  {
    FirstByteBits(x);
    if x.extension.Some? {
      ExtensionCount(raw, base, x.extension.value);
    }
  }

  lemma ExtensionCount(raw: bytes, at: nat, e: Extension)
    requires |e.words| < 0x1_0000
    requires at + 4 + 4 * |e.words| <= |raw|
    requires raw[at..at + 4 + 4 * |e.words|] == ExtensionBytes(Some(e))
    ensures ReadU16Be(raw, at + 2) == |e.words|
  {
    var ext := raw[at..at + 4 + 4 * |e.words|];
    assert ext[2..4] == U16Be(|e.words|);
    assert raw[at + 2] == ext[2] == ext[2..4][0] && raw[at + 3] == ext[3] == ext[2..4][1];
  }

  function WordsOf(b: bytes): (ws: seq<u32>)
    requires |b| % 4 == 0
    ensures |ws| == |b| / 4
  {
    if b == [] then [] else [ReadU32Be(b, 0)] + WordsOf(b[4..])
  }

  lemma U32Exact(b: bytes)
    requires |b| == 4
    ensures U32Be(ReadU32Be(b, 0)) == b
  {
    var v: int := ReadU32Be(b, 0);
    assert v / 0x100 == (b[0] as int) * 0x1_0000 + (b[1] as int) * 0x100 + b[2] as int;
    assert v / 0x1_0000 == (b[0] as int) * 0x100 + b[1] as int;
    assert v / 0x100_0000 == b[0];
  }

  lemma {:induction false} WordsExact(b: bytes)
    requires |b| % 4 == 0
    ensures Words(WordsOf(b)) == b
  {
    if b != [] {
      WordsExact(b[4..]);
      U32Exact(b[..4]);
      assert ReadU32Be(b, 0) == ReadU32Be(b[..4], 0);
      assert WordsOf(b)[1..] == WordsOf(b[4..]);
      assert b == b[..4] + b[4..];
    }
  }

  lemma FixedHeaderExact(raw: bytes, p: RtpPacket)
    requires |raw| >= 12 && p.payloadType == raw[1] % 0x80 && p.marker == HasBit(raw[1], 0x80)
    requires p.sequence == ReadU16Be(raw, 2) && p.timestamp == ReadU32Be(raw, 4) && p.ssrc == ReadU32Be(raw, 8)
    ensures FixedHeader(p, raw[0]) == raw[..12]
  {
    assert ReadU32Be(raw, 4) == ReadU32Be(raw[4..8], 0);
    assert ReadU32Be(raw, 8) == ReadU32Be(raw[8..12], 0);
    U32Exact(raw[4..8]);
    U32Exact(raw[8..12]);
    assert U16Be(p.sequence) == raw[2..4];
    assert raw[..12] == raw[..2] + raw[2..4] + raw[4..8] + raw[8..12];
  }

  /** The surroundings a parsed packet came in. */
  function ExtrasOf(raw: bytes): Extras
    requires ParseRtpPacket(raw).Ok?
  {
    var base := 12 + raw[0] % 0x10 * 4;
    var padding := if HasBit(raw[0], 0x20) then raw[|raw| - 1] as int else 0;
    Extras(WordsOf(raw[12..base]),
           if HasBit(raw[0], 0x10) then
             var end := base + 4 + ReadU16Be(raw, base + 2) as int * 4;
             Some(Extension(ReadU16Be(raw, base), WordsOf(raw[base + 4..end])))
           else None,
           raw[|raw| - padding..])
  }

  lemma ExtensionExact(raw: bytes, at: nat)
    requires at + 4 <= |raw| && at + 4 + ReadU16Be(raw, at + 2) as int * 4 <= |raw|
    ensures var end := at + 4 + ReadU16Be(raw, at + 2) as int * 4;
            ExtensionBytes(Some(Extension(ReadU16Be(raw, at), WordsOf(raw[at + 4..end])))) == raw[at..end]
  {
    var end := at + 4 + ReadU16Be(raw, at + 2) as int * 4;
    var profile, count, words := raw[at..at + 2], raw[at + 2..at + 4], raw[at + 4..end];
    assert Words(WordsOf(words)) == words && |WordsOf(words)| == ReadU16Be(raw, at + 2) by {
      WordsExact(words);
    }
    U16Exact(raw, at);
    U16Exact(raw, at + 2);
    ThreePieces(raw, at, at + 2, at + 4, end);
    assert ExtensionBytes(Some(Extension(ReadU16Be(raw, at), WordsOf(words)))) == profile + count + words;
  }

  lemma U16Exact(raw: bytes, at: nat)
    requires at + 2 <= |raw|
    ensures U16Be(ReadU16Be(raw, at)) == raw[at..at + 2]
  {
  }

  lemma ThreePieces(raw: bytes, i: nat, j: nat, k: nat, l: nat)
    requires i <= j <= k <= l <= |raw|
    ensures raw[i..l] == raw[i..j] + raw[j..k] + raw[k..l]
  {
  }

  lemma Assembled(raw: bytes, p: RtpPacket, x: Extras, base: nat, offset: nat)
    requires Legal(p, x) && 12 <= base <= offset <= |raw| - |x.padding|
    requires FixedHeader(p, FirstByte(x)) == raw[..12] && Words(x.csrcs) == raw[12..base]
    requires ExtensionBytes(x.extension) == raw[base..offset]
    requires p.payload == raw[offset..|raw| - |x.padding|] && x.padding == raw[|raw| - |x.padding|..]
    ensures EncodeRtp(p, x) == raw
  {
    var end := |raw| - |x.padding|;
    assert raw == raw[..12] + raw[12..base] + raw[base..offset] + raw[offset..end] + raw[end..];
  }

  /** Where the extension of a packet begins, and where its payload does. */
  function BaseOf(raw: bytes): (base: nat)
    requires ParseRtpPacket(raw).Ok?
    ensures 12 <= base <= |raw|
  {
    12 + raw[0] % 0x10 * 4
  }

  function OffsetOf(raw: bytes): (offset: nat)
    requires ParseRtpPacket(raw).Ok?
    ensures BaseOf(raw) <= offset <= |raw|
  {
    var base := BaseOf(raw);
    if HasBit(raw[0], 0x10) then base + 4 + ReadU16Be(raw, base + 2) as int * 4 else base
  }

  lemma PayloadLies(raw: bytes)
    requires ParseRtpPacket(raw).Ok?
    ensures var p, x := ParseRtpPacket(raw).value, ExtrasOf(raw);
            && Legal(p, x) && OffsetOf(raw) <= |raw| - |x.padding|
            && p.payload == raw[OffsetOf(raw)..|raw| - |x.padding|] && x.padding == raw[|raw| - |x.padding|..]
  {
    hide WordsOf;
    var x := ExtrasOf(raw);
    assert x.padding != [] ==> x.padding[|x.padding| - 1] == raw[|raw| - 1];
  }

  lemma HeaderLies(raw: bytes)
    requires ParseRtpPacket(raw).Ok? && Legal(ParseRtpPacket(raw).value, ExtrasOf(raw))
    ensures FixedHeader(ParseRtpPacket(raw).value, FirstByte(ExtrasOf(raw))) == raw[..12]
  {
    hide FirstByte, FixedHeader;
    FirstByteExact(raw[0], ExtrasOf(raw));
    FixedHeaderExact(raw, ParseRtpPacket(raw).value);
  }

  lemma ExtrasLie(raw: bytes)
    requires ParseRtpPacket(raw).Ok? && Legal(ParseRtpPacket(raw).value, ExtrasOf(raw))
    ensures Words(ExtrasOf(raw).csrcs) == raw[12..BaseOf(raw)]
    ensures ExtensionBytes(ExtrasOf(raw).extension) == raw[BaseOf(raw)..OffsetOf(raw)]
  {
    hide Words, WordsOf;
    WordsExact(raw[12..BaseOf(raw)]);
    if HasBit(raw[0], 0x10) {
      ExtensionExact(raw, BaseOf(raw));
    }
  }

  /** The parser accepts nothing else: every packet it takes is one the format describes, read as the format says. */
  lemma EncodeUndoesParse(raw: bytes)
    requires ParseRtpPacket(raw).Ok?
    ensures var p, x := ParseRtpPacket(raw).value, ExtrasOf(raw);
            Legal(p, x) && EncodeRtp(p, x) == raw
  {
    hide *;
    PayloadLies(raw);
    HeaderLies(raw);
    ExtrasLie(raw);
    Assembled(raw, ParseRtpPacket(raw).value, ExtrasOf(raw), BaseOf(raw), OffsetOf(raw));
  }

  lemma FirstByteExact(first: byte, x: Extras)
    requires first / 0x40 == 2 && |x.csrcs| == first % 0x10
    requires (x.padding != []) == HasBit(first, 0x20) && x.extension.Some? == HasBit(first, 0x10)
    ensures FirstByte(x) == first
  {
  }
}
