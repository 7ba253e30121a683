/** What one client sees of a whole run of the relay (viper/rtsp.py): the frames of all its calls, on the client's
    clock. */
module ClientRuns {
  import opened Bytes
  import opened Rtp
  import R = Relay
  import C = RelayClient

  /** Some of the frames sent to one client, in order: all of them, or those since it last connected. */
  predicate FramesTo(log: seq<R.Act>, client: nat, at: seq<nat>) {
    && (forall j :: 0 <= j < |at| ==> at[j] < |log| && log[at[j]].Sent? && log[at[j]].client == client)
    && (forall i, j :: 0 <= i < j < |at| ==> at[i] < at[j])
  }

  /** What its `rtp_frame` was given for them, when the packets were these. */
  function Fed(log: seq<R.Act>, at: seq<nat>, packets: seq<RtpPacket>): (ins: seq<C.Input>)
    requires |packets| == |at| && forall j :: 0 <= j < |at| ==> at[j] < |log| && log[at[j]].Sent?
    ensures |ins| == |at|
  {
    seq(|at|, j requires 0 <= j < |at| => C.Input(packets[j], log[at[j]].generation))
  }

  /** Whether a call was hung up between these two points of the log. */
  predicate HungUpBetween(log: seq<R.Act>, p: nat, q: nat)
    requires q <= |log|
  {
    exists m :: p < m < q && log[m].HangUp?
  }

  /** The time that has passed for the client by its last frame: what the panel's own clock says between two frames of
      one call, and a fixed gap wherever a call was hung up in between. */
  function TimeSeen(log: seq<R.Act>, at: seq<nat>, packets: seq<RtpPacket>): int
    requires |packets| == |at| && forall j :: 0 <= j < |at| ==> at[j] < |log|
    decreases |at|
  {
    var n := |at|;
    if n < 2 then 0
    else
      TimeSeen(log, at[..n - 1], packets[..n - 1])
      + if HungUpBetween(log, at[n - 2], at[n - 1]) then 9000
        else packets[n - 1].timestamp as int - packets[n - 2].timestamp as int
  }

  lemma FramesPrefix(log: seq<R.Act>, client: nat, at: seq<nat>, n: nat)
    requires FramesTo(log, client, at) && n <= |at|
    ensures FramesTo(log, client, at[..n])
  {
  }

  lemma FedPrefix(log: seq<R.Act>, at: seq<nat>, packets: seq<RtpPacket>, n: nat)
    requires |packets| == |at| && (forall j :: 0 <= j < |at| ==> at[j] < |log| && log[at[j]].Sent?) && n <= |at|
    ensures Fed(log, at[..n], packets[..n]) == Fed(log, at, packets)[..n]
  {
  }

  /** The generations tell the client's clock just what it has to know. */
  lemma {:induction false} ElapsedIsTimeSeen(steps: seq<R.Step>, client: nat, at: seq<nat>, packets: seq<RtpPacket>)
    requires FramesTo(R.Exec(steps).log, client, at) && |packets| == |at|
    ensures C.Elapsed(Fed(R.Exec(steps).log, at, packets)) == TimeSeen(R.Exec(steps).log, at, packets)
    decreases |at|
  {
    hide R.Exec;
    var log, n := R.Exec(steps).log, |at|;
    if n >= 2 {
      FramesPrefix(log, client, at, n - 1);
      FedPrefix(log, at, packets, n - 1);
      ElapsedIsTimeSeen(steps, client, at[..n - 1], packets[..n - 1]);
      R.GenerationTellsCallsApart(steps, at[n - 2], at[n - 1]);
    }
  }

  /** Over every run of the relay, whatever calls there were and however they ended: the n-th frame a client gets bears
      the time seen up to it, modulo 2^32, and the n-th sequence number after its first. */
  lemma ClientSeesOneStream(steps: seq<R.Step>, client: nat, at: seq<nat>, packets: seq<RtpPacket>, c: C.Clock, n: nat)
    requires FramesTo(R.Exec(steps).log, client, at) && |packets| == |at| && n < |at| && c.timestampOffset.None?
    ensures var log := R.Exec(steps).log;
            var sent := C.Rewritten(C.After(c, Fed(log, at, packets)[..n]), Fed(log, at, packets)[n]);
            && sent.timestamp == TimeSeen(log, at[..n + 1], packets[..n + 1]) % 0x1_0000_0000
            && sent.sequence == (c.sequence + n) % 0x1_0000 && sent.ssrc == c.ssrc
            && sent.payload == packets[n].payload && sent.marker == packets[n].marker
  {
    hide R.Exec;
    var log := R.Exec(steps).log;
    var ins := Fed(log, at, packets);
    FramesPrefix(log, client, at, n + 1);
    FedPrefix(log, at, packets, n + 1);
    ElapsedIsTimeSeen(steps, client, at[..n + 1], packets[..n + 1]);
    C.ClockRefinesUnbounded(c, ins, n);
  }
}
