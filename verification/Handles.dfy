/** The pool of channel handles that the outgoing call shares with everything else on the connection (viper/session.py,
    viper/call.py), over one TCP lifetime: when a close takes a handle from somebody else. */
module Handles {
  import opened Bytes
  import Rtp
  import V = Video

  /** `pending` is what a close still has to see to; `others` are the handles of channels that are not the call's, 0 for
      the management channel among them. */
  datatype Pool = Pool(call: V.Call, pending: seq<u16>, taken: set<u16>, others: set<u16>)

  const Fresh := Pool(V.Fresh, [], {}, {0})

  /** What happens to the pool. The call opens its channels like everybody else, at handles that are not taken; the
      panel takes any handle it likes. */
  datatype Event =
    | OtherOpens(handle: u16)
    | OtherCloses(handle: u16)
    | PanelOpens(name: string, handle: u16)
    | CallOpens(part: V.Event)
    | OfCall(event: V.Event)
    | Closes
    | ChannelCloses

  /** The handles that the call has, or that its close has not seen to yet. */
  function Own(s: Pool): set<u16> {
    V.SetOf(V.Handles(s.call)) + V.SetOf(s.pending)
  }

  /** The handle that a part of `open` gets. */
  function Opened(part: V.Event): Option<u16> {
    match part
    case UdpOpened(handle) => Some(handle)
    case AudioOpened(handle) => Some(handle)
    case VideoOpened(handle) => Some(handle)
    case _ => None
  }

  predicate Free(s: Pool, handle: u16) {
    handle != 0 && handle !in s.taken
  }

  predicate Enabled(s: Pool, e: Event) {
    match e
    case OtherOpens(handle) => Free(s, handle)
    case OtherCloses(handle) => handle != 0 && handle in s.others
    case PanelOpens(_, _) => true
    case CallOpens(part) => Opened(part).Some? && Free(s, Opened(part).value) && V.Fits(s.call, part) && !s.call.closed
    case OfCall(event) => event.Opens? || event.Streams? || event.FrameIn? || event.Ends? || event.Takes?
    case Closes => !s.call.closed
    case ChannelCloses => s.pending != []
  }

  /** What `_next_handle`, and for the video channel `reserve_handle`, take for a part of `open`. */
  function TakenFor(part: V.Event): set<u16> {
    match part
    case UdpOpened(handle) => {handle}
    case AudioOpened(handle) => {handle}
    case VideoOpened(handle) => {handle, (handle + 1) % 0x1_0000}
    case _ => {}
  }

  /** Whether a channel the panel opens goes to the call. */
  predicate ForCall(s: Pool, name: string) {
    s.call.listening && name == "RTPC"
  }

  function Apply(s: Pool, e: Event): Pool {
    if !Enabled(s, e) then s
    else match e
      case OtherOpens(handle) => s.(taken := s.taken + {handle}, others := s.others + {handle})
      case OtherCloses(handle) => s.(taken := s.taken - {handle}, others := s.others - {handle})
      case PanelOpens(name, handle) =>
        s.(call := V.React(s.call, V.PanelOpened(name, handle)), taken := s.taken + {handle},
           others := if ForCall(s, name) then s.others else s.others + {handle})
      case CallOpens(part) => s.(call := V.React(s.call, part), taken := s.taken + TakenFor(part))
      case OfCall(event) => s.(call := V.React(s.call, event))
      case Closes => s.(call := V.Cleanup(s.call), pending := V.Handles(s.call))
      case ChannelCloses => s.(pending := s.pending[1..], taken := s.taken - {s.pending[0]})
  }

  function Run(events: seq<Event>): Pool {
    if events == [] then Fresh else Apply(Run(events[..|events| - 1]), events[|events| - 1])
  }

  // ---------------------------------------------------------------- handles in two hands

  /** The handles of others that a close would close. */
  function Shared(s: Pool): set<u16> {
    Own(s) * s.others
  }

  /** The handles that a step puts into two hands: the one after the video handle, if it is somebody's; one that the
      panel opens for the call although it is somebody's, or for somebody although it is the call's; and one of the
      call's that somebody's close has put back into the pool. */
  function Gained(s: Pool, e: Event): set<u16> {
    if !Enabled(s, e) then {}
    else match e
      case OtherOpens(handle) => {handle} * Own(s)
      case PanelOpens(name, handle) => {handle} * if ForCall(s, name) then s.others else Own(s)
      case CallOpens(VideoOpened(handle)) => {(handle + 1) % 0x1_0000} * s.others
      case _ => {}
  }

  /** The handles that the call, or somebody else, gives up in a step. */
  function GivenUp(s: Pool, e: Event): set<u16> {
    (Own(s) - Own(Apply(s, e))) + (s.others - Apply(s, e).others)
  }

  /** Until the call is closed, what is somebody else's is taken. */
  predicate PoolOk(s: Pool) {
    && 0 in s.others && (!s.call.closed ==> s.others <= s.taken + {0})
    && (s.call.closed ==> !s.call.listening && V.SetOf(V.Handles(s.call)) == {})
    && (!s.call.closed ==> s.pending == [])
  }

  lemma CallHandles(s: Pool)
    ensures forall h :: h in V.SetOf(V.Handles(s.call)) <==>
                          Some(h) in [s.call.audio, s.call.video, s.call.media, s.call.remote, s.call.udp]
  {
    V.AllHandles(s.call);
  }

  /** A step shares what it says it does. */
  predicate SharesRight(s: Pool, e: Event, r: Pool) {
    PoolOk(r) && Shared(r) == Shared(s) - GivenUp(s, e) + Gained(s, e)
  }

  lemma StepShares(s: Pool, e: Event)
    requires PoolOk(s)
    ensures SharesRight(s, e, Apply(s, e))
  {
    hide V.React, V.Cleanup;
    match e
    case CallOpens(part) => CallShares(s, part);
    case OfCall(event) => PlainShares(s, event);
    case PanelOpens(name, handle) => PanelShares(s, name, handle);
    case Closes => CloseShares(s);
    case ChannelCloses => ChannelShares(s);
    case _ => CallHandles(s);
  }

  lemma CallShares(s: Pool, part: V.Event)
    requires PoolOk(s)
    ensures SharesRight(s, CallOpens(part), Apply(s, CallOpens(part)))
  {
    CallHandles(s);
    CallHandles(Apply(s, CallOpens(part)));
    hide V.Present, V.Handles;
  }

  lemma PlainShares(s: Pool, event: V.Event)
    requires PoolOk(s)
    ensures SharesRight(s, OfCall(event), Apply(s, OfCall(event)))
  {
    hide Rtp.ParseRtpPacket, V.Present;
    assert Enabled(s, OfCall(event)) ==> V.Handles(V.React(s.call, event)) == V.Handles(s.call);
  }

  lemma PanelShares(s: Pool, name: string, handle: u16)
    requires PoolOk(s)
    ensures SharesRight(s, PanelOpens(name, handle), Apply(s, PanelOpens(name, handle)))
  {
    CallHandles(s);
    CallHandles(Apply(s, PanelOpens(name, handle)));
    hide V.Present, V.Handles;
  }

  lemma CloseShares(s: Pool)
    requires PoolOk(s)
    ensures SharesRight(s, Closes, Apply(s, Closes))
  {
    CallHandles(Apply(s, Closes));
    hide V.Present, V.Handles;
  }

  lemma ChannelShares(s: Pool)
    requires PoolOk(s)
    ensures SharesRight(s, ChannelCloses, Apply(s, ChannelCloses))
  {
    hide V.Handles;
  }

  // ---------------------------------------------------------------- the results

  ghost predicate GainedAt(events: seq<Event>, n: nat, handle: u16) {
    n < |events| && handle in Gained(Run(events[..n]), events[n])
  }

  ghost predicate GivenUpAt(events: seq<Event>, n: nat, handle: u16) {
    n < |events| && handle in GivenUp(Run(events[..n]), events[n])
  }

  /** Whether a step put this handle into two hands and neither let go of it since. */
  ghost predicate StillShared(events: seq<Event>, handle: u16) {
    exists n: nat :: GainedAt(events, n, handle) && KeptSince(events, n, handle)
  }

  ghost predicate KeptSince(events: seq<Event>, n: nat, handle: u16) {
    forall m: nat :: n < m ==> !GivenUpAt(events, m, handle)
  }

  lemma {:induction false} PoolStaysOk(events: seq<Event>)
    ensures PoolOk(Run(events))
  {
    hide PoolOk, Apply;
    if events == [] {
      FreshOk();
    } else {
      PoolStaysOk(events[..|events| - 1]);
      StepShares(Run(events[..|events| - 1]), events[|events| - 1]);
    }
  }

  lemma FreshOk()
    ensures PoolOk(Fresh) && Own(Fresh) == {}
  {
    CallHandles(Fresh);
  }

  /** A close would close a channel of somebody else exactly if a step put its handle into two hands and neither has let
      go of it since. */
  lemma {:induction false} SharedExactlyWhen(events: seq<Event>, handle: u16)
    ensures handle in Shared(Run(events)) <==> StillShared(events, handle)
  {
    hide Apply, Gained, GivenUp, Own, PoolOk;
    if events == [] {
      FreshOk();
    } else {
      var front, e := events[..|events| - 1], events[|events| - 1];
      PoolStaysOk(front);
      StepShares(Run(front), e);
      SharedExactlyWhen(front, handle);
      OneMoreStep(events, handle);
    }
  }

  lemma OneMoreStep(events: seq<Event>, handle: u16)
    requires events != []
    ensures var n := |events| - 1;
            StillShared(events, handle) <==>
            GainedAt(events, n, handle) || (StillShared(events[..n], handle) && !GivenUpAt(events, n, handle))
  {
    hide Run, Gained, GivenUp;
    var n, front := |events| - 1, events[..|events| - 1];
    forall m: nat | m < n
      ensures GainedAt(events, m, handle) <==> GainedAt(front, m, handle)
      ensures GivenUpAt(events, m, handle) <==> GivenUpAt(front, m, handle)
    {
      assert events[..m] == front[..m];
    }
    forall m: nat | m < n
      ensures KeptSince(events, m, handle) <==> KeptSince(front, m, handle) && !GivenUpAt(events, n, handle)
    {
      if KeptSince(front, m, handle) && !GivenUpAt(events, n, handle) {
        forall k: nat | m < k ensures !GivenUpAt(events, k, handle) {
          assert k < n ==> !GivenUpAt(front, k, handle);
        }
      }
      if KeptSince(events, m, handle) {
        forall k: nat | m < k ensures !GivenUpAt(front, k, handle) {
          assert k < n ==> !GivenUpAt(events, k, handle);
        }
      }
    }
  }

  /** So the next channel that a close closes is somebody else's exactly if that is so of its handle; and after that the
      pool hands the handle out again, whoever still uses it. */
  lemma CloseTakesFromOthersExactlyWhen(events: seq<Event>)
    requires Run(events).pending != []
    ensures var s, closed := Run(events), Apply(Run(events), ChannelCloses);
            var handle := s.pending[0];
            && (handle in s.others <==> StillShared(events, handle))
            && closed.others == s.others && (handle != 0 ==> Free(closed, handle))
  {
    hide Run;
    var s := Run(events);
    SharedExactlyWhen(events, s.pending[0]);
    assert s.pending[0] in Own(s);
  }

  /** Whatever handle the video channel gets: if the panel has opened a channel on the next one, or that is the
      management handle, the close of the call is going to close it. */
  lemma NextHandleIsTaken(video: u16)
    requires video != 0
    ensures var next := (video + 1) % 0x1_0000;
            var s := Run([PanelOpens("CTPP", next), CallOpens(V.VideoOpened(video)), Closes]);
            next in Shared(s) && next in s.pending
  {
    hide V.Handles, V.Cleanup, Own;
    var next := (video + 1) % 0x1_0000;
    var events := [PanelOpens("CTPP", next), CallOpens(V.VideoOpened(video)), Closes];
    assert events[..2] == [PanelOpens("CTPP", next), CallOpens(V.VideoOpened(video))];
    assert events[..2][..1] == [PanelOpens("CTPP", next)] && events[..2][..1][..0] == [];
    assert Run(events[..2][..1]) == Fresh.(taken := {next}, others := {0, next});
    assert Run(events) == Apply(Run(events[..2]), Closes);
    ClosesNext(Run(events[..2]), next);
  }

  lemma ClosesNext(s: Pool, next: u16)
    requires !s.call.closed && s.call.media == Some(next) && next in s.others
    ensures next in Shared(Apply(s, Closes)) && next in Apply(s, Closes).pending
  {
    CallHandles(s);
    hide V.Handles, V.Cleanup;
  }
}
