/** What an open video call (viper/call.py) receives: which of the panel's frames reach its consumer's queue. */
module Arrivals {
  import opened Bytes
  import opened Rtp
  import V = Video

  /** What happens to a call that has been opened and not closed, as long as the link holds. */
  predicate InService(e: V.Event) {
    e.FrameIn? || e.PanelOpened? || e.Ends? || e.Takes?
  }

  /** The channels for media that the panel has opened by then. */
  function MediaOf(events: seq<V.Event>): set<u16> {
    if events == [] then {}
    else
      var front, last := MediaOf(events[..|events| - 1]), events[|events| - 1];
      if last.PanelOpened? && last.name == "RTPC" then front + {last.handle} else front
  }

  /** What came in, in order: every frame that is an RTP packet, on one of the call's own two video handles or on a
      channel the panel had opened for media by then, and every end that was seen. */
  function ArrivedOf(events: seq<V.Event>, own: set<u16>): seq<V.Item> {
    if events == [] then []
    else
      var front, last := events[..|events| - 1], events[|events| - 1];
      ArrivedOf(front, own)
      + match last
        case FrameIn(handle, payload) =>
          if (handle in own || handle in MediaOf(front)) && ParseRtpPacket(payload).Ok? then
            [Some(ParseRtpPacket(payload).value)]
          else []
        case Ends => [None]
        case _ => []
  }

  /** `open`, up to where the panel's media may come. */
  function Opening(udp: u16, audio: u16, video: u16): seq<V.Event> {
    [V.Opens, V.UdpOpened(udp), V.AudioOpened(audio), V.VideoOpened(video), V.Streams]
  }

  /** The call that has been opened so, after these events. */
  predicate Serving(c: V.Call, events: seq<V.Event>, audio: u16, own: set<u16>) {
    && c.listening && !c.closed
    && c.routed == own + {audio} + MediaOf(events) && c.videoHandles == own + MediaOf(events)
    && c.enqueued == ArrivedOf(events, own)
  }

  lemma Opened(udp: u16, audio: u16, video: u16)
    ensures Serving(V.Run(V.Fresh, Opening(udp, audio, video)), [], audio, {video, (video + 1) % 0x1_0000})
  {
    hide V.React, V.Run, ParseRtpPacket, Serving;
    OneByOne(V.Opens, V.UdpOpened(udp), V.AudioOpened(audio), V.VideoOpened(video), V.Streams);
    SetUp(udp, audio, video);
  }

  /** The call as it is once its own handles are known. */
  function Ready(udp: u16, audio: u16, video: u16): V.Call {
    var next := (video + 1) % 0x1_0000;
    V.Fresh.(listening := true, udp := Some(udp), audio := Some(audio), video := Some(video), media := Some(next),
             videoHandles := {video, next})
  }

  lemma SetUp(udp: u16, audio: u16, video: u16)
    ensures var ready := V.React(V.React(V.React(V.React(V.Fresh, V.Opens), V.UdpOpened(udp)), V.AudioOpened(audio)),
                                 V.VideoOpened(video));
            Serving(V.React(ready, V.Streams), [], audio, {video, (video + 1) % 0x1_0000})
  {
    hide V.React, Ready, Serving;
    GetsReady(udp, audio, video);
    Streams(udp, audio, video);
  }

  lemma GetsReady(udp: u16, audio: u16, video: u16)
    ensures V.React(V.React(V.React(V.React(V.Fresh, V.Opens), V.UdpOpened(udp)), V.AudioOpened(audio)),
                    V.VideoOpened(video)) == Ready(udp, audio, video)
  {
    hide V.MediaIn, V.Cleanup, V.TakeOne, V.ChannelIn, V.Enqueued, V.SetOf, V.Present;
    assert V.React(V.Fresh, V.Opens) == V.Fresh.(listening := true);
  }

  lemma Streams(udp: u16, audio: u16, video: u16)
    ensures Serving(V.React(Ready(udp, audio, video), V.Streams), [], audio, {video, (video + 1) % 0x1_0000})
  {
    hide V.MediaIn, V.Cleanup, V.TakeOne, V.ChannelIn, V.Enqueued;
    var ready := Ready(udp, audio, video);
    V.AllHandles(ready);
    hide V.SetOf, V.Present;
    assert V.SetOf(V.Present([ready.audio, ready.video, ready.media])) == {audio, video, (video + 1) % 0x1_0000};
  }

  lemma OneByOne(a: V.Event, b: V.Event, c: V.Event, d: V.Event, e: V.Event)
    ensures V.Run(V.Fresh, [a, b, c, d, e])
            == V.React(V.React(V.React(V.React(V.React(V.Fresh, a), b), c), d), e)
  {
    hide V.React;
    assert [a, b, c, d, e][..4] == [a, b, c, d] && [a, b, c, d][..3] == [a, b, c] && [a, b, c][..2] == [a, b];
    assert [a, b][..1] == [a] && [a][..0] == [];
    assert V.Run(V.Fresh, [a]) == V.React(V.Fresh, a);
    assert V.Run(V.Fresh, [a, b]) == V.React(V.Run(V.Fresh, [a]), b);
    assert V.Run(V.Fresh, [a, b, c]) == V.React(V.Run(V.Fresh, [a, b]), c);
    assert V.Run(V.Fresh, [a, b, c, d]) == V.React(V.Run(V.Fresh, [a, b, c]), d);
  }

  lemma ServesOn(c: V.Call, front: seq<V.Event>, last: V.Event, audio: u16, own: set<u16>)
    requires Serving(c, front, audio, own) && InService(last)
    ensures Serving(V.React(c, last), front + [last], audio, own)
  {
    hide ParseRtpPacket;
    assert (front + [last])[..|front|] == front;
  }

  /** For every call that was opened, whatever frames and channels the panel sends, ends are seen and entries taken:
      what is put on its queue, in order, is exactly the RTP packets among the frames on its video handle, on the one
      after it, and on the channels the panel had opened for media by then, and the ends; its audio is not. */
  lemma {:induction false} VideoArrives(udp: u16, audio: u16, video: u16, events: seq<V.Event>)
    requires forall i :: 0 <= i < |events| ==> InService(events[i])
    ensures V.Run(V.Fresh, Opening(udp, audio, video) + events).enqueued
            == ArrivedOf(events, {video, (video + 1) % 0x1_0000})
  {
    StillServing(udp, audio, video, events);
  }

  lemma {:induction false} StillServing(udp: u16, audio: u16, video: u16, events: seq<V.Event>)
    requires forall i :: 0 <= i < |events| ==> InService(events[i])
    ensures Serving(V.Run(V.Fresh, Opening(udp, audio, video) + events), events, audio,
                    {video, (video + 1) % 0x1_0000})
  {
    hide V.React, Serving;
    var start := Opening(udp, audio, video);
    if events == [] {
      Opened(udp, audio, video);
      assert start + [] == start;
    } else {
      var front, last := events[..|events| - 1], events[|events| - 1];
      StillServing(udp, audio, video, front);
      assert (start + events)[..|start + events| - 1] == start + front;
      ServesOn(V.Run(V.Fresh, start + front), front, last, audio, {video, (video + 1) % 0x1_0000});
      assert front + [last] == events;
    }
  }

  // ---------------------------------------------------------------- what is dropped, and after the link is lost

  /** Whatever has left the queue was taken, or had 512 others behind it. */
  predicate OnlyTheCrowdedOut(c: V.Call) {
    && |c.queue| <= |c.enqueued|
    && forall k :: 0 <= k < |c.enqueued| - |c.queue| ==> k in c.taken || k + 512 < |c.enqueued|
  }

  lemma EnqueuedCrowds(c: V.Call, item: V.Item)
    requires OnlyTheCrowdedOut(c) && V.QueueOk(c)
    ensures OnlyTheCrowdedOut(V.Enqueued(c, item))
  {
  }

  lemma ReactCrowds(c: V.Call, e: V.Event)
    requires OnlyTheCrowdedOut(c) && V.QueueOk(c)
    ensures OnlyTheCrowdedOut(V.React(c, e))
  {
    hide ParseRtpPacket, V.Present, V.SetOf, V.Enqueued, V.QueueOk, OnlyTheCrowdedOut, V.LetGoOf;
    match e
    case FrameIn(handle, payload) =>
      if ParseRtpPacket(payload).Ok? {
        EnqueuedCrowds(c, Some(ParseRtpPacket(payload).value));
      }
    case Ends => EnqueuedCrowds(c, None);
    case Closes =>
      SameCrowd(c, V.LetGoOf(c));
      EnqueuedCrowds(V.LetGoOf(c), None);
    case Takes => TakenCrowds(c);
    case _ => SameCrowd(c, V.React(c, e));
  }

  lemma SameCrowd(c: V.Call, d: V.Call)
    requires OnlyTheCrowdedOut(c) && V.QueueOk(c)
    ensures d.queue == c.queue && d.enqueued == c.enqueued && d.taken == c.taken ==>
              OnlyTheCrowdedOut(d) && V.QueueOk(d)
    ensures var l := V.LetGoOf(c); l.queue == c.queue && l.enqueued == c.enqueued && l.taken == c.taken
  {
  }

  lemma TakenCrowds(c: V.Call)
    requires OnlyTheCrowdedOut(c) && V.QueueOk(c)
    ensures OnlyTheCrowdedOut(V.TakeOne(c))
  {
    if c.queue != [] {
      var d, at := V.TakeOne(c), |c.enqueued| - |c.queue|;
      assert d.taken == c.taken + [at];
      assert at in d.taken;
    }
  }

  /** In every run, an entry is dropped only to make room for the 512 that came after it: until then it is there for the
      consumer to take. */
  lemma {:induction false} DroppedOnlyWhenFull(events: seq<V.Event>)
    ensures OnlyTheCrowdedOut(V.Run(V.Fresh, events))
  {
    hide V.React, V.QueueOk, OnlyTheCrowdedOut;
    NothingDroppedYet();
    if events != [] {
      var front, last := events[..|events| - 1], events[|events| - 1];
      DroppedOnlyWhenFull(front);
      V.RunKeepsQueue(V.Fresh, front);
      ReactCrowds(V.Run(V.Fresh, front), last);
    }
  }

  lemma NothingDroppedYet()
    ensures V.QueueOk(V.Fresh) && OnlyTheCrowdedOut(V.Fresh)
  {
  }

  /** Once the link is lost, no frame reaches the queue any more, whatever the panel had opened: only ends do. */
  lemma {:induction false} NothingAfterLoss(c: V.Call, events: seq<V.Event>)
    requires forall i :: 0 <= i < |events| ==> InService(events[i])
    ensures var r := V.Run(V.React(c, V.LinkLost), events);
            && !r.listening && r.routed == {}
            && |c.enqueued| <= |r.enqueued| && r.enqueued[..|c.enqueued|] == c.enqueued
            && forall k :: |c.enqueued| <= k < |r.enqueued| ==> r.enqueued[k] == None
  {
    hide ParseRtpPacket, V.Cleanup;
    if events != [] {
      NothingAfterLoss(c, events[..|events| - 1]);
    }
  }
}
