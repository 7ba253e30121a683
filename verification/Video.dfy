/** The outgoing video call (viper/call.py): its channels and frame queue, and a close that can be resumed. */
module Video {
  import opened Bytes
  import opened Ctp
  import opened Rtp
  import opened Calls
  import opened Session

  const VIDEO_QUEUE_SIZE := 512
  const MEDIA_START_TIMEOUT := 10.0
  const MEDIA_SILENCE := 2.0

  /** A queue entry; None is the end of the stream. */
  type Item = Option<RtpPacket>

  datatype Call = Call(
    listening: bool,          // the session tells this call of channels the panel opens
    routed: set<u16>,         // the handles whose frames reach _on_media
    audio: Option<u16>, video: Option<u16>, media: Option<u16>, remote: Option<u16>, udp: Option<u16>,
    videoHandles: set<u16>,
    queue: seq<Item>,
    closed: bool,
    enqueued: seq<Item>,      // everything ever put on the queue
    taken: seq<nat>,          // which of it the consumer got
    offered: set<u16>)         // the RTPC channels the panel opened

  const Fresh := Call(false, {}, None, None, None, None, None, {}, [], false, [], [], {})

  function Present(handles: seq<Option<u16>>): seq<u16> {
    if handles == [] then []
    else (if handles[0].Some? then [handles[0].value] else []) + Present(handles[1..])
  }

  /** The handles a close has to see to, in the order it takes them. */
  function Handles(c: Call): seq<u16> {
    Present([c.audio, c.video, c.media, c.remote, c.udp])
  }

  function SetOf(handles: seq<u16>): set<u16> {
    set h | h in handles
  }

  /** Room is made by dropping the oldest. */
  function Enqueued(c: Call, item: Item): Call {
    c.(queue := (if |c.queue| >= VIDEO_QUEUE_SIZE then c.queue[1..] else c.queue) + [item],
       enqueued := c.enqueued + [item])
  }

  function MediaIn(c: Call, handle: u16, payload: bytes): Call {
    if handle !in c.videoHandles then c
    else match ParseRtpPacket(payload)
      case ValueError => c
      case Ok(packet) => Enqueued(c, Some(packet))
  }

  function ChannelIn(c: Call, name: string, handle: u16): Call {
    if name != "RTPC" then c
    else c.(remote := Some(handle), videoHandles := c.videoHandles + {handle}, routed := c.routed + {handle},
            offered := c.offered + {handle})
  }

  /** The consumer gets the oldest entry, if there is one. */
  function TakeOne(c: Call): Call {
    if c.queue == [] then c
    else
      c.(queue := c.queue[1..],
         taken := c.taken + [if |c.queue| <= |c.enqueued| then |c.enqueued| - |c.queue| else 0])
  }

  /** What a close leaves of the call's own handles. */
  function LetGoOf(c: Call): Call {
    c.(closed := true, listening := false, routed := c.routed - SetOf(Handles(c)),
       audio := None, video := None, media := None, remote := None, udp := None)
  }

  /** What a close does before its first await. */
  function Cleanup(c: Call): Call {
    if c.closed then c
    else Enqueued(LetGoOf(c), None)
  }

  /** What can happen to a call: the parts of `open`, frames and channels from the panel, an end seen by one of its
      watchers, its consumer, its close, and the session losing the link. */
  datatype Event =
    | Opens
    | UdpOpened(handle: u16)
    | AudioOpened(handle: u16)
    | VideoOpened(handle: u16)
    | Streams
    | PanelOpened(name: string, handle: u16)
    | FrameIn(handle: u16, payload: bytes)
    | Ends
    | Takes
    | Closes
    | LinkLost

  function React(c: Call, e: Event): Call {
    match e
    case Opens => if c.closed then c else c.(listening := true)
    case UdpOpened(handle) => if c.closed then c else c.(udp := Some(handle))
    case AudioOpened(handle) => if c.closed then c else c.(audio := Some(handle))
    case VideoOpened(handle) =>
      if c.closed then c
      else
        var next := (handle + 1) % 0x1_0000;
        c.(video := Some(handle), media := Some(next), videoHandles := {handle, next})
    case Streams => if c.closed then c else c.(routed := c.routed + SetOf(Present([c.audio, c.video, c.media])))
    case PanelOpened(name, handle) => if c.listening then ChannelIn(c, name, handle) else c
    case FrameIn(handle, payload) => if handle in c.routed then MediaIn(c, handle, payload) else c
    case Ends => Enqueued(c, None)
    case Takes => TakeOne(c)
    case Closes => Cleanup(c)
    case LinkLost => c.(listening := false, routed := {})
  }

  function Run(c: Call, events: seq<Event>): Call {
    if events == [] then c else React(Run(c, events[..|events| - 1]), events[|events| - 1])
  }

  lemma {:induction false} RunOn(c: Call, first: seq<Event>, then': seq<Event>)
    ensures Run(c, first + then') == Run(Run(c, first), then')
  {
    hide React;
    if then' == [] {
      assert first + [] == first;
    } else {
      var n := |first + then'| - 1;
      assert (first + then')[..n] == first + then'[..|then'| - 1];
      RunOn(c, first, then'[..|then'| - 1]);
    }
  }

  // ---------------------------------------------------------------- the queue

  predicate Increasing(indices: seq<nat>) {
    forall i, j :: 0 <= i < j < |indices| ==> indices[i] < indices[j]
  }

  /** The queue is the end of what was put on it, at most 512 long; what the consumer got came before that, in order;
      and only the consumer empties it. */
  predicate QueueOk(c: Call) {
    && |c.queue| <= VIDEO_QUEUE_SIZE && |c.queue| <= |c.enqueued|
    && c.queue == c.enqueued[|c.enqueued| - |c.queue|..]
    && Increasing(c.taken) && (forall i :: 0 <= i < |c.taken| ==> c.taken[i] < |c.enqueued| - |c.queue|)
    && (c.queue == [] && c.enqueued != [] ==> c.taken != [] && c.taken[|c.taken| - 1] == |c.enqueued| - 1)
  }

  lemma EnqueuedKeeps(c: Call, item: Item)
    requires QueueOk(c)
    ensures QueueOk(Enqueued(c, item)) && Enqueued(c, item).queue != []
  {
    var c' := Enqueued(c, item);
    var at, at' := |c.enqueued| - |c.queue|, |c'.enqueued| - |c'.queue|;
    assert c.enqueued[at..] + [item] == c'.enqueued[at..];
    if |c.queue| >= VIDEO_QUEUE_SIZE {
      assert c'.queue == c'.enqueued[at..][1..];
    }
    assert c'.queue == c'.enqueued[at'..];
  }

  lemma QueueWithin(c: Call)
    requires QueueOk(c)
    ensures |c.queue| <= |c.enqueued|
  {
  }

  lemma TakesKeeps(c: Call)
    requires QueueOk(c)
    ensures QueueOk(TakeOne(c))
  {
    if c.queue != [] {
      assert c.queue[1..] == c.enqueued[|c.enqueued| - |c.queue| + 1..];
    }
  }

  lemma ReactKeepsQueue(c: Call, e: Event)
    requires QueueOk(c)
    ensures QueueOk(React(c, e))
  {
    hide ParseRtpPacket, Present, SetOf, MediaIn, Enqueued, TakeOne, QueueOk;
    match e
    case FrameIn(handle, payload) => MediaKeepsQueue(c, handle, payload);
    case Ends => EnqueuedKeeps(c, None);
    case Closes =>
      SameQueue(c, LetGoOf(c));
      EnqueuedKeeps(LetGoOf(c), None);
    case Takes => TakesKeeps(c);
    case _ => SameQueue(c, React(c, e));
  }

  lemma SameQueue(c: Call, d: Call)
    requires QueueOk(c) && d.queue == c.queue && d.enqueued == c.enqueued && d.taken == c.taken
    ensures QueueOk(d)
  {
  }

  lemma MediaKeepsQueue(c: Call, handle: u16, payload: bytes)
    requires QueueOk(c)
    ensures QueueOk(MediaIn(c, handle, payload))
  {
    hide ParseRtpPacket, QueueOk, Enqueued;
    var packet := ParseRtpPacket(payload);
    if packet.Ok? {
      EnqueuedKeeps(c, Some(packet.value));
    }
  }

  lemma {:induction false} RunKeepsQueue(c: Call, events: seq<Event>)
    requires QueueOk(c)
    ensures QueueOk(Run(c, events))
  {
    hide React, QueueOk;
    if events != [] {
      RunKeepsQueue(c, events[..|events| - 1]);
      ReactKeepsQueue(Run(c, events[..|events| - 1]), events[|events| - 1]);
    }
  }

  /** Whatever happens: the queue holds the newest entries, at most 512 of them and none missing among them, and the
      consumer got entries in the order they came in. */
  lemma DropsOnlyTheOldest(events: seq<Event>)
    ensures var c := Run(Fresh, events);
            && |c.queue| <= 512 && |c.queue| <= |c.enqueued|
            && c.queue == c.enqueued[|c.enqueued| - |c.queue|..]
            && Increasing(c.taken)
            && (forall i :: 0 <= i < |c.taken| ==> c.taken[i] < |c.enqueued| - |c.queue|)
  {
    hide React;
    RunKeepsQueue(Fresh, events);
  }

  // ---------------------------------------------------------------- what a close leaves routed

  /** Frames reach the call only on its own handles and on channels the panel opened; of those, the latest is known. */
  ghost predicate RoutesOk(c: Call) {
    && (!c.closed ==> c.routed <= c.offered + SetOf(Handles(c)))
    && (c.closed ==> c.routed <= c.offered && !c.listening)
    && (c.remote.Some? ==> c.remote.value in c.offered)
    && (!c.closed && c.offered != {} ==> c.remote.Some?)
    && (c.closed && |c.offered| <= 1 ==> c.routed == {})
  }

  lemma AllHandles(c: Call)
    ensures forall h :: h in SetOf(Handles(c)) <==> Some(h) in [c.audio, c.video, c.media, c.remote, c.udp]
    ensures forall h :: h in SetOf(Present([c.audio, c.video, c.media])) <==> Some(h) in [c.audio, c.video, c.media]
  {
    InPresent([c.audio, c.video, c.media, c.remote, c.udp]);
    InPresent([c.audio, c.video, c.media]);
  }

  lemma {:induction false} InPresent(handles: seq<Option<u16>>)
    ensures forall h :: h in Present(handles) <==> Some(h) in handles
  {
    if handles != [] {
      InPresent(handles[1..]);
      assert handles == [handles[0]] + handles[1..];
    }
  }

  lemma AtMostOne(s: set<u16>, x: u16)
    requires |s| <= 1 && x in s
    ensures s == {x}
  {
    assert |s - {x}| == 0;
  }

  lemma CloseKeepsRoutes(c: Call)
    requires RoutesOk(c)
    ensures RoutesOk(Cleanup(c))
  {
    if !c.closed && |c.offered| <= 1 && c.offered != {} {
      AllHandles(c);
      AtMostOne(c.offered, c.remote.value);
    }
  }

  lemma ReactKeepsRoutes(c: Call, e: Event)
    requires RoutesOk(c) && (e.VideoOpened? || e.AudioOpened? || e.UdpOpened? ==> Fits(c, e))
    ensures RoutesOk(React(c, e))
  {
    hide ParseRtpPacket, Present, Handles;
    AllHandles(c);
    match e
    case Closes => CloseKeepsRoutes(c);
    case _ => AllHandles(React(c, e));
  }

  /** `open` runs once, so it fills in each handle once. */
  predicate Fits(c: Call, e: Event) {
    match e
    case UdpOpened(_) => c.udp.None?
    case AudioOpened(_) => c.audio.None?
    case VideoOpened(_) => c.video.None? && c.media.None?
    case _ => true
  }

  ghost predicate OpensOnce(c: Call, events: seq<Event>) {
    forall n :: 0 <= n < |events| ==> Fits(Run(c, events[..n]), events[n])
  }

  lemma {:induction false} RunKeepsRoutes(events: seq<Event>)
    requires OpensOnce(Fresh, events)
    ensures RoutesOk(Run(Fresh, events))
  {
    if events != [] {
      var front := events[..|events| - 1];
      forall n | 0 <= n < |front| ensures Fits(Run(Fresh, front[..n]), front[n]) {
        assert Fits(Run(Fresh, events[..n]), events[n]) && front[..n] == events[..n];
      }
      assert Fits(Run(Fresh, front), events[|front|]);
      RunKeepsRoutes(front);
      ReactKeepsRoutes(Run(Fresh, front), events[|events| - 1]);
    }
  }

  // ---------------------------------------------------------------- the end of the stream

  /** Whether the stream still ends for the consumer: it got an end put there since the close, or one is queued. */
  predicate EndInReach(c: Call, since: nat) {
    || (exists i :: 0 <= i < |c.taken| && since <= c.taken[i] < |c.enqueued| && c.enqueued[c.taken[i]] == None)
    || None in c.queue
  }

  /** Whether the consumer got an end, put there since, after state `s`. */
  predicate EndTaken(s: Call, t: Call, since: nat) {
    exists i :: |s.taken| <= i < |t.taken| && since <= t.taken[i] < |t.enqueued| && t.enqueued[t.taken[i]] == None
  }

  /** Whether no frame can be put on the queue any more. */
  predicate Silent(c: Call) {
    c.closed && !c.listening && c.routed * c.videoHandles == {}
  }

  lemma {:induction false} SilentStays(c: Call, events: seq<Event>)
    requires Silent(c)
    ensures var t := Run(c, events);
            && Silent(t) && |c.enqueued| <= |t.enqueued| && t.enqueued[..|c.enqueued|] == c.enqueued
            && (forall i :: |c.enqueued| <= i < |t.enqueued| ==> t.enqueued[i] == None)
  {
    if events != [] {
      var s, e := Run(c, events[..|events| - 1]), events[|events| - 1];
      SilentStays(c, events[..|events| - 1]);
      SilentStep(s, e);
    }
  }

  lemma SilentStep(c: Call, e: Event)
    requires Silent(c)
    ensures Silent(React(c, e)) && (React(c, e).enqueued == c.enqueued || React(c, e).enqueued == c.enqueued + [None])
  {
    match e
    case FrameIn(handle, _) =>
      assert handle in c.routed && handle in c.videoHandles ==> handle in c.routed * c.videoHandles;
    case _ =>
  }

  /** The consumer's next takes come after what had left the queue before, each after the one before. */
  predicate LaterThan(c: Call, t: Call) {
    && |c.taken| <= |t.taken| && t.taken[..|c.taken|] == c.taken
    && |c.enqueued| - |c.queue| <= |t.enqueued| - |t.queue|
    && (forall k :: |c.taken| <= k < |t.taken| ==> |c.enqueued| - |c.queue| + k - |c.taken| <= t.taken[k])
  }

  lemma {:induction false} LaterTakes(c: Call, events: seq<Event>)
    requires QueueOk(c)
    ensures LaterThan(c, Run(c, events))
  {
    hide React, QueueOk;
    if events != [] {
      var front := events[..|events| - 1];
      LaterTakes(c, front);
      RunKeepsQueue(c, front);
      LaterStep(c, Run(c, front), events[|events| - 1]);
    }
  }

  lemma LaterStep(c: Call, s: Call, e: Event)
    requires QueueOk(s) && LaterThan(c, s)
    ensures LaterThan(c, React(s, e))
  {
    hide ParseRtpPacket, Present, SetOf, QueueOk, LaterThan, TakeOne;
    QueueWithin(s);
    if e.Takes? {
      LaterTake(c, s);
    } else {
      LaterIfNoneTaken(c, s, React(s, e));
    }
  }

  lemma LaterIfNoneTaken(c: Call, s: Call, t: Call)
    requires LaterThan(c, s) && t.taken == s.taken && |s.enqueued| - |s.queue| <= |t.enqueued| - |t.queue|
    ensures LaterThan(c, t)
  {
  }

  lemma LaterTake(c: Call, s: Call)
    requires QueueOk(s) && LaterThan(c, s)
    ensures LaterThan(c, TakeOne(s))
  {
    if s.queue != [] {
      var t, k, from := TakeOne(s), |s.taken|, |s.enqueued| - |s.queue|;
      assert t.taken == s.taken + [from];
      forall j | |c.taken| <= j < |t.taken| ensures |c.enqueued| - |c.queue| + j - |c.taken| <= t.taken[j] {
        assert k > |c.taken| ==> s.taken[k - 1] < from;
      }
    }
  }

  /** After a close that leaves the call silent, draining ends: as long as the consumer has not got an end there is
      something to take, and taking as many entries as were queued brings one. */
  lemma DrainingEnds(c: Call, events: seq<Event>)
    requires QueueOk(c) && !c.closed && Silent(Cleanup(c))
    ensures var s, t := Cleanup(c), Run(Cleanup(c), events);
            var got := EndTaken(s, t, |c.enqueued|);
            && (!got ==> None in t.queue)
            && (|t.taken| - |s.taken| >= |s.queue| ==> got)
  {
    var s, t, end := Cleanup(c), Run(Cleanup(c), events), |c.enqueued|;
    ReactKeepsQueue(c, Closes);
    RunKeepsQueue(s, events);
    SilentStays(s, events);
    LaterTakes(s, events);
    assert s.enqueued == c.enqueued + [None] && s.queue != [];
    hide QueueOk, LaterThan, Run;
    EndFollows(s, t, end);
  }

  lemma EndFollows(s: Call, t: Call, end: nat)
    requires QueueOk(s) && QueueOk(t) && LaterThan(s, t)
    requires |s.enqueued| == end + 1 && s.enqueued[end] == None && s.queue != []
    requires |s.enqueued| <= |t.enqueued| && t.enqueued[..|s.enqueued|] == s.enqueued
    requires forall i :: |s.enqueued| <= i < |t.enqueued| ==> t.enqueued[i] == None
    ensures EndTaken(s, t, end) || None in t.queue
    ensures |t.taken| - |s.taken| >= |s.queue| ==> EndTaken(s, t, end)
  {
    assert forall i :: end <= i < |t.enqueued| ==> t.enqueued[i] == None by {
      assert t.enqueued[..|s.enqueued|][end] == None;
    }
    var k := |s.taken| + |s.queue| - 1;
    assert k < |t.taken| ==> end <= t.taken[k];
    if t.queue != [] {
      assert t.queue[|t.queue| - 1] == t.enqueued[|t.enqueued| - 1];
    } else {
      LastIsNew(s, t);
      assert t.taken[|t.taken| - 1] == |t.enqueued| - 1;
    }
  }

  lemma LastIsNew(s: Call, t: Call)
    requires QueueOk(s) && QueueOk(t) && LaterThan(s, t) && s.queue != [] && t.queue == []
    requires |s.enqueued| <= |t.enqueued|
    ensures |s.taken| < |t.taken|
  {
    assert |t.taken| == |s.taken| ==> t.taken == s.taken;
    assert s.taken != [] ==> s.taken[|s.taken| - 1] < |s.enqueued| - |s.queue|;
  }

  function Repeat<T>(x: T, n: nat): (xs: seq<T>)
    ensures |xs| == n && forall i :: 0 <= i < n ==> xs[i] == x
  {
    seq(n, i => x)
  }

  /** `n` frames have come in since `c`, all on one routed handle. */
  predicate FloodOf(c: Call, t: Call, packet: RtpPacket, n: nat) {
    && t.routed == c.routed && t.videoHandles == c.videoHandles && t.taken == c.taken
    && t.enqueued == c.enqueued + Repeat(Some(packet), n)
    && |t.queue| == (if |c.queue| + n <= VIDEO_QUEUE_SIZE then |c.queue| + n else VIDEO_QUEUE_SIZE)
  }

  lemma {:induction false} Flooded(c: Call, handle: u16, payload: bytes, n: nat)
    requires QueueOk(c) && handle in c.routed * c.videoHandles && ParseRtpPacket(payload).Ok?
    ensures QueueOk(Run(c, Repeat(FrameIn(handle, payload), n)))
    ensures FloodOf(c, Run(c, Repeat(FrameIn(handle, payload), n)), ParseRtpPacket(payload).value, n)
  {
    var e, packet := FrameIn(handle, payload), ParseRtpPacket(payload).value;
    hide ParseRtpPacket, QueueOk;
    RunKeepsQueue(c, Repeat(e, n));
    if n == 0 {
      assert c.enqueued + Repeat(Some(packet), 0) == c.enqueued;
      QueueBound(c);
    } else {
      Flooded(c, handle, payload, n - 1);
      var s := Run(c, Repeat(e, n - 1));
      assert Repeat(e, n)[..n - 1] == Repeat(e, n - 1);
      assert Run(c, Repeat(e, n)) == Enqueued(s, Some(packet));
      FloodStep(c, s, packet, n);
    }
  }

  lemma QueueBound(c: Call)
    requires QueueOk(c)
    ensures |c.queue| <= VIDEO_QUEUE_SIZE
  {
  }

  lemma FloodStep(c: Call, s: Call, packet: RtpPacket, n: nat)
    requires n > 0 && FloodOf(c, s, packet, n - 1)
    ensures FloodOf(c, Enqueued(s, Some(packet)), packet, n)
  {
    var item: Item := Some(packet);
    assert Repeat(item, n) == Repeat(item, n - 1) + [item];
  }

  /** A frame the parser takes. */
  const A_FRAME: bytes := [0x80, 0x60, 0, 0, 0, 0, 0, 0, 0, 0, 0, 0]

  /** The end of the stream survives everything that can happen after a close exactly when the close leaves no video
      handle routed to the call: the panel opened at most one RTPC channel, or the others came before the call had its
      own, or the link is gone. Otherwise 512 frames push it out. */
  lemma EndSurvivesExactlyWhen(c: Call)
    requires QueueOk(c) && !c.closed
    ensures (forall events :: EndInReach(Run(Cleanup(c), events), |c.enqueued|))
            <==> (c.routed - SetOf(Handles(c))) * c.videoHandles == {}
  {
    hide Run, QueueOk, Present;
    var s, left := Cleanup(c), (c.routed - SetOf(Handles(c))) * c.videoHandles;
    ReactKeepsQueue(c, Closes);
    hide EndInReach;
    if left == {} {
      forall events ensures EndInReach(Run(s, events), |c.enqueued|) {
        DrainingEnds(c, events);
      }
    } else {
      var handle :| handle in left;
      assert ParseRtpPacket(A_FRAME).Ok?;
      var flood := Repeat(FrameIn(handle, A_FRAME), VIDEO_QUEUE_SIZE);
      Flooded(s, handle, A_FRAME, VIDEO_QUEUE_SIZE);
      PushedOut(s, Run(s, flood), ParseRtpPacket(A_FRAME).value);
      assert !EndInReach(Run(s, flood), |c.enqueued|);
    }
  }

  lemma PushedOut(s: Call, t: Call, packet: RtpPacket)
    requires QueueOk(s) && QueueOk(t) && s.queue != [] && FloodOf(s, t, packet, VIDEO_QUEUE_SIZE)
    ensures !EndInReach(t, |s.enqueued| - 1)
  {
    forall i | 0 <= i < |t.queue| ensures t.queue[i].Some? {
      assert t.queue[i] == t.enqueued[|s.enqueued| + i];
    }
    forall i | 0 <= i < |t.taken| ensures t.taken[i] < |s.enqueued| - 1 {
      assert t.taken[i] == s.taken[i] < |s.enqueued| - |s.queue|;
    }
  }

  /** In particular, if the panel opened at most one RTPC channel the stream ends. */
  lemma OneChannelEnds(before: seq<Event>, after: seq<Event>)
    requires OpensOnce(Fresh, before + [Closes]) && !Run(Fresh, before).closed && |Run(Fresh, before).offered| <= 1
    ensures EndInReach(Run(Fresh, before + [Closes] + after), |Run(Fresh, before).enqueued|)
  {
    var c := Run(Fresh, before);
    assert (before + [Closes])[..|before|] == before;
    assert Run(Fresh, before + [Closes]) == Cleanup(c);
    RunOn(Fresh, before + [Closes], after);
    RunKeepsQueue(Fresh, before);
    RunKeepsRoutes(before + [Closes]);
    DrainingEnds(c, after);
  }

  /** A call that streams, and two channels opened by the panel. */
  function TwoChannels(video: u16, first: u16, second: u16): seq<Event> {
    [Opens, VideoOpened(video), Streams, PanelOpened("RTPC", first), PanelOpened("RTPC", second)]
  }

  /** With a second one the stream need not end: a close forgets the first, whose frames then push the end out. */
  lemma SecondChannelLosesEnd(video: u16, first: u16, second: u16)
    requires first != second && first != video && first != (video + 1) % 0x1_0000
    ensures var c := Run(Fresh, TwoChannels(video, first, second));
            && OpensOnce(Fresh, TwoChannels(video, first, second)) && !c.closed
            && exists after :: !EndInReach(Run(Cleanup(c), after), |c.enqueued|)
  {
    var events := TwoChannels(video, first, second);
    var c := Run(Fresh, events);
    TwoChannelsOpen(video, first, second);
    RunKeepsQueue(Fresh, events);
    hide Run, QueueOk, EndInReach;
    AllHandles(c);
    assert first in (c.routed - SetOf(Handles(c))) * c.videoHandles;
    EndSurvivesExactlyWhen(c);
  }

  lemma TwoChannelsOpen(video: u16, first: u16, second: u16)
    ensures var c := Run(Fresh, TwoChannels(video, first, second));
            && OpensOnce(Fresh, TwoChannels(video, first, second)) && !c.closed
            && first in c.routed && first in c.videoHandles
            && c.video == Some(video) && c.media == Some((video + 1) % 0x1_0000) && c.remote == Some(second)
            && c.audio == None && c.udp == None
  {
    var events := TwoChannels(video, first, second);
    assert events[..5] == events && events[..5][..4] == events[..4] && events[..4][..3] == events[..3];
    assert events[..3][..2] == events[..2] && events[..2][..1] == events[..1] && events[..1][..0] == [];
  }

  // ---------------------------------------------------------------- closing

  /** How an await of a close came back: done; with an error that the close suppresses; or cut short, by a cancellation
      or by anything else that is not caught. */
  datatype Await = Done | Refused | Cut

  /** What a send on the call's connection comes to before anything is written. */
  datatype Link = CanSend | Displaced | Unsendable

  datatype Act = Cleaned | TriedRelease(sent: bool) | TriedClose(handle: u16)

  datatype Outcome = Complete | CutShort | Raised

  /** What the panel still has to be told, and whether the tasks still have to be ended. */
  datatype Todo = Todo(tasks: bool, release: bool, pending: seq<u16>)

  datatype Closing = Closing(todo: Todo, acts: seq<Act>, outcome: Outcome)

  /** What is left of the script once `n` tasks have ended; None if that was cut short. */
  function EndTasks(n: nat, script: seq<Await>): Option<seq<Await>> {
    if n == 0 then Some(script)
    else if script == [] || script[0].Cut? then None
    else EndTasks(n - 1, script[1..])
  }

  /** Closing the channels one by one; a handle leaves the list once its close has come back. */
  function CloseChannels(t: Todo, script: seq<Await>): Closing
    decreases |t.pending|
  {
    if t.pending == [] then Closing(t, [], Complete)
    else
      var acts := [TriedClose(t.pending[0])];
      if script == [] || script[0].Cut? then Closing(t, acts, CutShort)
      else
        Preceded(acts, CloseChannels(t.(pending := t.pending[1..]), script[1..]))
  }

  function Preceded(acts: seq<Act>, c: Closing): Closing {
    c.(acts := acts + c.acts)
  }

  lemma PrecededTwice(first: seq<Act>, then': seq<Act>, c: Closing)
    ensures Preceded(first, Preceded(then', c)) == Preceded(first + then', c)
  {
    assert first + (then' + c.acts) == first + then' + c.acts;
  }

  function SendRelease(t: Todo, link: Link, script: seq<Await>): Closing {
    if !t.release then CloseChannels(t, script)
    else if link.Unsendable? then Closing(t, [TriedRelease(false)], Raised)
    else if link.CanSend? && (script == [] || script[0].Cut?) then Closing(t, [TriedRelease(true)], CutShort)
    else
      Preceded([TriedRelease(link.CanSend?)],
               CloseChannels(t.(release := false), if link.CanSend? then script[1..] else script))
  }

  /** One call of `close`, after the local cleanup, whose awaits come back as the script says; a script that runs out
      leaves it suspended. */
  function RunClose(t: Todo, link: Link, script: seq<Await>): Closing {
    match EndTasks(if t.tasks then 3 else 0, script)
    case None => Closing(t, [], CutShort)
    case Some(left) => SendRelease(t.(tasks := false), link, left)
  }

  /** How waiting for a task that is being ended came to its end: normally, with an error, or with a CancelledError,
      which may be the task's own or be meant for the one who waits. */
  datatype TaskEnd = ByItself | ByError | ByCancellation

  /** end_task: a CancelledError is passed on if the one who waits has been asked to stop, now or before. */
  function EndTask(end: TaskEnd, cancelling: bool): Await {
    if end.ByCancellation? && cancelling then Cut else Done
  }

  /** How ending the three tasks comes back to one who is cancelled while the task numbered `from` is being ended: all
      along if that is 0, and not at all if it is 3. */
  function TaskAwaits(ends: seq<TaskEnd>, from: nat): (awaits: seq<Await>)
    requires |ends| == 3
    ensures |awaits| == 3
  {
    seq(3, k requires 0 <= k < 3 => EndTask(ends[k], from <= k))
  }

  /** Whether that cancellation comes through: some task was still running then, and so ends by being cancelled. */
  predicate Caught(ends: seq<TaskEnd>, from: nat) {
    exists k :: from <= k < |ends| && ends[k].ByCancellation?
  }

  /** So a close does not get to the RELEASE it owes exactly if its owner has been cancelled, before it or while it is
      ending the call's tasks, and one of the tasks that were still to end was running. It stops there, with the panel
      told nothing, however its other awaits would have gone. */
  lemma CancelledOwnerCannotClose(t: Todo, link: Link, ends: seq<TaskEnd>, from: nat, script: seq<Await>)
    requires t.tasks && |ends| == 3
    ensures var run := RunClose(t, link, TaskAwaits(ends, from) + script);
            && run == (if Caught(ends, from) then Closing(t, [], CutShort)
                       else SendRelease(t.(tasks := false), link, script))
            && ((exists sent :: TriedRelease(sent) in run.acts) <==> t.release && !Caught(ends, from))
  {
    var awaits := TaskAwaits(ends, from);
    assert ends == [ends[0], ends[1], ends[2]];
    assert Caught(ends, from) <==> Cut in awaits by {
      assert Cut in awaits ==> exists k :: 0 <= k < 3 && awaits[k].Cut?;
      assert forall k :: 0 <= k < 3 ==> (awaits[k].Cut? <==> from <= k && ends[k].ByCancellation?);
    }
    assert awaits + script == [awaits[0]] + ([awaits[1]] + ([awaits[2]] + script));
    EndFirst(3, awaits[0], [awaits[1]] + ([awaits[2]] + script));
    EndFirst(2, awaits[1], [awaits[2]] + script);
    EndFirst(1, awaits[2], script);
    ReleaseIsTried(t.(tasks := false), link, script);
  }

  lemma ReleaseIsTried(t: Todo, link: Link, script: seq<Await>)
    ensures t.release <==> exists sent :: TriedRelease(sent) in SendRelease(t, link, script).acts
  {
    if t.release {
      assert SendRelease(t, link, script).acts[0] in SendRelease(t, link, script).acts;
      assert SendRelease(t, link, script).acts[0] == TriedRelease(link.CanSend?);
    } else {
      OnlyCloses(t, script);
    }
  }

  lemma EndFirst(n: nat, first: Await, rest: seq<Await>)
    requires n > 0
    ensures EndTasks(n, [first] + rest) == if first.Cut? then None else EndTasks(n - 1, rest)
  {
    assert ([first] + rest)[1..] == rest;
  }

  /** A close that is called, with the state its connection is found in. */
  datatype Attempt = Attempt(link: Link, script: seq<Await>)

  /** Any number of closes, one after the other. */
  function RunCloses(t: Todo, attempts: seq<Attempt>): Closing {
    if attempts == [] then Closing(t, [], CutShort)
    else
      var before, last := RunCloses(t, attempts[..|attempts| - 1]), attempts[|attempts| - 1];
      Preceded(before.acts, RunClose(before.todo, last.link, last.script))
  }

  /** The attempts go through the handles in order, each at least once. */
  predicate Walks(attempts: seq<Act>, handles: seq<u16>) {
    if attempts == [] then handles == []
    else
      && handles != []
      && attempts[|attempts| - 1] == TriedClose(handles[|handles| - 1])
      && (Walks(attempts[..|attempts| - 1], handles) || Walks(attempts[..|attempts| - 1], handles[..|handles| - 1]))
  }

  lemma {:induction false} WalkReachesAll(attempts: seq<Act>, handles: seq<u16>)
    requires Walks(attempts, handles)
    ensures forall i :: 0 <= i < |handles| ==> TriedClose(handles[i]) in attempts
    ensures forall i :: 0 <= i < |attempts| ==> attempts[i].TriedClose?
  {
    if attempts != [] {
      var front := attempts[..|attempts| - 1];
      if Walks(front, handles) {
        WalkReachesAll(front, handles);
      } else {
        WalkReachesAll(front, handles[..|handles| - 1]);
        forall i | 0 <= i < |handles| ensures TriedClose(handles[i]) in attempts {
          assert i < |handles| - 1 ==> TriedClose(handles[..|handles| - 1][i]) in front;
        }
      }
    }
  }

  lemma WalkOn(attempts: seq<Act>, handles: seq<u16>, m: nat, d: nat)
    requires d <= m <= d + 1 && m <= |handles| && d < |handles| && Walks(attempts, handles[..m])
    ensures Walks(attempts + [TriedClose(handles[d])], handles[..d + 1])
  {
    var more := attempts + [TriedClose(handles[d])];
    assert more[..|more| - 1] == attempts;
    assert handles[..d + 1][..d] == handles[..d];
  }

  /** What has been done from `t0` on (`acts`) to get to `t`: `r` tries of the RELEASE, then closes of the first `m`
      handles, all but perhaps the last of which came back. */
  predicate Progress(t0: Todo, acts: seq<Act>, t: Todo, r: nat, m: nat) {
    && (t.tasks ==> t0.tasks && acts == []) && (t.release ==> t0.release)
    && r <= |acts| && (r > 0 ==> t0.release) && (t0.release && !t.release ==> r > 0)
    && (forall i :: 0 <= i < r ==> acts[i].TriedRelease?)
    && (r < |acts| ==> !t.release)
    && |t.pending| <= |t0.pending| && t.pending == t0.pending[|t0.pending| - |t.pending|..]
    && |t0.pending| - |t.pending| <= m <= |t0.pending| - |t.pending| + 1 && m <= |t0.pending|
    && Walks(acts[r..], t0.pending[..m])
  }

  lemma CloseTried(t0: Todo, acts: seq<Act>, t: Todo, r: nat, m: nat)
    requires Progress(t0, acts, t, r, m) && !t.tasks && !t.release && t.pending != []
    ensures var d := |t0.pending| - |t.pending|;
            && Progress(t0, acts + [TriedClose(t.pending[0])], t, r, d + 1)
            && Progress(t0, acts + [TriedClose(t.pending[0])], t.(pending := t.pending[1..]), r, d + 1)
  {
    WalkOn(acts[r..], t0.pending, m, |t0.pending| - |t.pending|);
    assert (acts + [TriedClose(t.pending[0])])[r..] == acts[r..] + [TriedClose(t.pending[0])];
  }

  lemma ReleaseTried(t0: Todo, acts: seq<Act>, t: Todo, r: nat, m: nat, sent: bool)
    requires Progress(t0, acts, t, r, m)
    ensures !t.tasks && t.release ==>
              && Progress(t0, acts + [TriedRelease(sent)], t, r + 1, m)
              && Progress(t0, acts + [TriedRelease(sent)], t.(release := false), r + 1, m)
  {
    hide Walks;
    if t.release {
      assert acts[r..] == [] == (acts + [TriedRelease(sent)])[r + 1..];
    }
  }

  /** One round of CloseChannels. */
  lemma NextChannel(t: Todo, script: seq<Await>)
    ensures CloseChannels(t, script) ==
            if t.pending == [] then Closing(t, [], Complete)
            else if script == [] || script[0].Cut? then Closing(t, [TriedClose(t.pending[0])], CutShort)
            else Preceded([TriedClose(t.pending[0])], CloseChannels(t.(pending := t.pending[1..]), script[1..]))
  {
  }

  lemma {:induction false} ChannelsProgress(t0: Todo, acts: seq<Act>, t: Todo, r: nat, m: nat,
                                            script: seq<Await>)
      returns (m': nat)
    requires Progress(t0, acts, t, r, m) && !t.tasks && !t.release
    ensures var c := CloseChannels(t, script); Progress(t0, acts + c.acts, c.todo, r, m')
    ensures CloseChannels(t, script).outcome.Complete? ==> CloseChannels(t, script).todo == Todo(false, false, [])
    decreases |t.pending|
  {
    hide Walks, CloseChannels;
    NextChannel(t, script);
    assert |t.pending| <= |t0.pending|;
    hide Progress;
    if t.pending == [] {
      m' := m;
      assert acts + [] == acts;
    } else {
      m' := |t0.pending| - |t.pending| + 1;
      CloseTried(t0, acts, t, r, m);
      var try, next := [TriedClose(t.pending[0])], t.(pending := t.pending[1..]);
      if script != [] && !script[0].Cut? {
        var rest := CloseChannels(next, script[1..]);
        m' := ChannelsProgress(t0, acts + try, next, r, m', script[1..]);
        assert acts + try + rest.acts == acts + (try + rest.acts);
      }
    }
  }

  lemma ReleaseProgress(t0: Todo, acts: seq<Act>, t: Todo, r: nat, m: nat, link: Link, script: seq<Await>)
      returns (r': nat, m': nat)
    requires Progress(t0, acts, t, r, m) && !t.tasks
    ensures var c := SendRelease(t, link, script); Progress(t0, acts + c.acts, c.todo, r', m')
    ensures SendRelease(t, link, script).outcome.Complete? ==>
              SendRelease(t, link, script).todo == Todo(false, false, [])
  {
    hide Progress, CloseChannels;
    if !t.release {
      r' := r;
      m' := ChannelsProgress(t0, acts, t, r, m, script);
    } else {
      ReleaseTried(t0, acts, t, r, m, link.CanSend?);
      r', m' := r + 1, m;
      var try, next := [TriedRelease(link.CanSend?)], t.(release := false);
      if link.Displaced? || (link.CanSend? && script != [] && !script[0].Cut?) {
        var left := if link.CanSend? then script[1..] else script;
        m' := ChannelsProgress(t0, acts + try, next, r + 1, m, left);
        assert acts + try + CloseChannels(next, left).acts == acts + (try + CloseChannels(next, left).acts);
      }
    }
  }

  lemma CloseProgress(t0: Todo, acts: seq<Act>, t: Todo, r: nat, m: nat, link: Link, script: seq<Await>)
      returns (r': nat, m': nat)
    requires Progress(t0, acts, t, r, m)
    ensures var c := RunClose(t, link, script); Progress(t0, acts + c.acts, c.todo, r', m')
    ensures RunClose(t, link, script).outcome.Complete? ==> RunClose(t, link, script).todo == Todo(false, false, [])
  {
    hide SendRelease, EndTasks, Walks;
    r', m' := r, m;
    var left := EndTasks(if t.tasks then 3 else 0, script);
    assert Progress(t0, acts, t.(tasks := false), r, m);
    hide Progress;
    if left.Some? {
      r', m' := ReleaseProgress(t0, acts, t.(tasks := false), r, m, link, left.value);
    } else {
      assert acts + [] == acts;
    }
  }

  lemma NoProgressYet(t: Todo)
    ensures Progress(t, [], t, 0, 0)
  {
  }

  lemma {:induction false} ClosesProgress(t: Todo, attempts: seq<Attempt>) returns (r: nat, m: nat)
    ensures var c := RunCloses(t, attempts); Progress(t, c.acts, c.todo, r, m)
    ensures RunCloses(t, attempts).outcome.Complete? ==> RunCloses(t, attempts).todo == Todo(false, false, [])
  {
    hide Progress, RunClose;
    if attempts == [] {
      r, m := 0, 0;
      NoProgressYet(t);
    } else {
      r, m := ClosesProgress(t, attempts[..|attempts| - 1]);
      var before, last := RunCloses(t, attempts[..|attempts| - 1]), attempts[|attempts| - 1];
      r, m := CloseProgress(t, before.acts, before.todo, r, m, last.link, last.script);
    }
  }

  /** However often a close is cut short and called again, and however its connection is found each time: what is left
      to do only shrinks, the RELEASE is tried before the first channel is closed, and the channels are closed in order.
      Once a close comes to its end nothing is left, the RELEASE was tried if there was a connection, and so was the
      close of every handle. */
  lemma ResumableClose(t: Todo, attempts: seq<Attempt>)
    ensures var c := RunCloses(t, attempts);
            && (c.todo.tasks ==> t.tasks) && (c.todo.release ==> t.release)
            && |c.todo.pending| <= |t.pending| && c.todo.pending == t.pending[|t.pending| - |c.todo.pending|..]
            && (exists r, m :: 0 <= r <= |c.acts| && 0 <= m <= |t.pending| && ReleaseThenChannels(t, c.acts, r, m))
            && (c.outcome.Complete? ==>
                  && c.todo == Todo(false, false, [])
                  && (t.release <==> exists sent :: TriedRelease(sent) in c.acts)
                  && forall i :: 0 <= i < |t.pending| ==> TriedClose(t.pending[i]) in c.acts)
  {
    var c := RunCloses(t, attempts);
    var r, m := ClosesProgress(t, attempts);
    hide RunCloses;
    ProgressMeans(t, c.acts, c.todo, r, m);
    hide Progress;
    if c.outcome.Complete? {
      ProgressToTheEnd(t, c.acts, r, m);
    }
  }

  lemma ProgressMeans(t0: Todo, acts: seq<Act>, t: Todo, r: nat, m: nat)
    requires Progress(t0, acts, t, r, m)
    ensures (t.tasks ==> t0.tasks) && (t.release ==> t0.release)
    ensures |t.pending| <= |t0.pending| && t.pending == t0.pending[|t0.pending| - |t.pending|..]
    ensures r <= |acts| && m <= |t0.pending| && ReleaseThenChannels(t0, acts, r, m)
  {
    hide Walks;
  }

  lemma ProgressToTheEnd(t0: Todo, acts: seq<Act>, r: nat, m: nat)
    requires Progress(t0, acts, Todo(false, false, []), r, m)
    ensures t0.release <==> exists sent :: TriedRelease(sent) in acts
    ensures forall i :: 0 <= i < |t0.pending| ==> TriedClose(t0.pending[i]) in acts
  {
    WalkReachesAll(acts[r..], t0.pending[..m]);
    hide Walks;
    assert t0.pending[..m] == t0.pending;
    forall i | 0 <= i < |t0.pending| ensures TriedClose(t0.pending[i]) in acts {
      assert TriedClose(t0.pending[i]) in acts[r..];
    }
    if t0.release {
      assert acts[0] == TriedRelease(acts[0].sent);
    } else {
      assert acts[r..] == acts;
    }
  }

  predicate ReleaseThenChannels(t: Todo, acts: seq<Act>, r: nat, m: nat)
    requires r <= |acts| && m <= |t.pending|
  {
    && (forall i :: 0 <= i < r ==> acts[i].TriedRelease?)
    && (r < |acts| && t.release ==> r > 0)
    && Walks(acts[r..], t.pending[..m])
  }

  /** In each close the RELEASE is written if and only if the connection can be written to: never once displaced. */
  lemma SentAsTheLinkAllows(t: Todo, link: Link, script: seq<Await>, sent: bool)
    requires TriedRelease(sent) in RunClose(t, link, script).acts
    ensures sent == link.CanSend?
  {
    var left := EndTasks(if t.tasks then 3 else 0, script);
    if left.Some? {
      OnlyCloses(t.(tasks := false), left.value);
      OnlyCloses(t.(tasks := false, release := false),
                 if link.CanSend? && left.value != [] then left.value[1..] else left.value);
    }
  }

  lemma {:induction false} OnlyCloses(t: Todo, script: seq<Await>)
    ensures forall a :: a in CloseChannels(t, script).acts ==> a.TriedClose?
    decreases |t.pending|
  {
    if t.pending != [] && script != [] {
      OnlyCloses(t.(pending := t.pending[1..]), script[1..]);
    }
  }

  /** So over all of them nothing is written unless one found it that way; and as long as its addresses cannot be
      encoded every close raises, before any channel is closed. */
  lemma {:induction false} OnlyALiveLinkIsUsed(t: Todo, attempts: seq<Attempt>)
    ensures var c := RunCloses(t, attempts);
            && (TriedRelease(true) in c.acts ==> exists k :: 0 <= k < |attempts| && attempts[k].link.CanSend?)
            && (t.release && (forall k :: 0 <= k < |attempts| ==> attempts[k].link.Unsendable?) ==>
                  && c.todo.release && !c.outcome.Complete? && c.todo.pending == t.pending
                  && forall h :: TriedClose(h) !in c.acts)
  {
    if attempts != [] {
      var n := |attempts| - 1;
      var before := RunCloses(t, attempts[..n]);
      OnlyALiveLinkIsUsed(t, attempts[..n]);
      if TriedRelease(true) in RunClose(before.todo, attempts[n].link, attempts[n].script).acts {
        SentAsTheLinkAllows(before.todo, attempts[n].link, attempts[n].script, true);
        assert attempts[n].link.CanSend?;
      } else if TriedRelease(true) in RunCloses(t, attempts).acts {
        var k :| 0 <= k < n && attempts[..n][k].link.CanSend?;
        assert attempts[k].link.CanSend?;
      }
    }
  }

  /** What a close was cut short at is still to be done: the RELEASE, or the channel, is tried again by the next. */
  lemma CutShortIsRetried(t: Todo, link: Link, script: seq<Await>)
    requires RunClose(t, link, script).outcome.CutShort?
    ensures var c := RunClose(t, link, script);
            && (c.acts == [] ==> c.todo == t)
            && (c.acts != [] ==>
                  match c.acts[|c.acts| - 1]
                  case TriedClose(h) => c.todo.pending != [] && c.todo.pending[0] == h
                  case _ => c.todo == t.(tasks := false))
  {
    var left := EndTasks(if t.tasks then 3 else 0, script);
    if left.Some? {
      CutChannelIsRetried(t.(tasks := false), left.value);
      CutChannelIsRetried(t.(tasks := false, release := false),
                          if link.CanSend? && left.value != [] then left.value[1..] else left.value);
    }
  }

  lemma {:induction false} CutChannelIsRetried(t: Todo, script: seq<Await>)
    ensures var c := CloseChannels(t, script);
            c.outcome.CutShort? ==>
              c.acts != [] && c.todo.pending != [] && c.acts[|c.acts| - 1] == TriedClose(c.todo.pending[0])
    decreases |t.pending|
  {
    if t.pending != [] && script != [] && !script[0].Cut? {
      CutChannelIsRetried(t.(pending := t.pending[1..]), script[1..]);
    }
  }

  /** And a close whose awaits all come back, on a connection that can be written to or was displaced, comes to its
      end. */
  lemma {:induction false} UncutCloseFinishes(t: Todo, link: Link, script: seq<Await>)
    requires Cut !in script && |script| >= (if t.tasks then 3 else 0) + (if t.release then 1 else 0) + |t.pending|
    ensures RunClose(t, link, script).outcome.Complete? <==> !(t.release && link.Unsendable?)
  {
    var n := if t.tasks then 3 else 0;
    TasksEnd(n, script);
    var left := script[n..];
    if t.release && link.CanSend? {
      assert !left[0].Cut?;
      ChannelsClose(t.(tasks := false, release := false), left[1..]);
    } else {
      ChannelsClose(t.(tasks := false, release := false), left);
    }
  }

  lemma {:induction false} TasksEnd(n: nat, script: seq<Await>)
    requires Cut !in script && n <= |script|
    ensures EndTasks(n, script) == Some(script[n..])
  {
    if n > 0 {
      assert script[0] in script;
      TasksEnd(n - 1, script[1..]);
      assert script[1..][n - 1..] == script[n..];
    }
  }

  lemma {:induction false} ChannelsClose(t: Todo, script: seq<Await>)
    requires Cut !in script && |t.pending| <= |script|
    ensures CloseChannels(t, script).outcome.Complete?
    decreases |t.pending|
  {
    if t.pending != [] {
      assert script[0] in script;
      ChannelsClose(t.(pending := t.pending[1..]), script[1..]);
    }
  }

  // ---------------------------------------------------------------- the object

  const RELEASE_BODY: bytes := U16Be(OP_RELEASE) + [0]

  /** What becomes of a RELEASE sent on this connection. */
  function LinkOf(conn: CtpConnection): Link
    reads conn
  {
    if conn.failed then Displaced
    else if |conn.localId| == 2 && Address(conn.source) && Address(conn.destination) then CanSend
    else Unsendable
  }

  /** The handles whose channels were tried to be closed. */
  function TriedHandles(acts: seq<Act>): set<u16> {
    set a | a in acts && a.TriedClose? :: a.handle
  }

  lemma TriedMore(handles: set<u16>, acts: seq<Act>, handle: u16)
    ensures handles - TriedHandles(acts) - {handle} == handles - TriedHandles(acts + [TriedClose(handle)])
  {
    assert TriedClose(handle) in acts + [TriedClose(handle)];
    assert TriedHandles(acts + [TriedClose(handle)]) == TriedHandles(acts) + {handle};
  }

  lemma TriedSame(acts: seq<Act>, sent: bool)
    ensures TriedHandles([TriedRelease(sent)] + acts) == TriedHandles(acts)
    ensures TriedHandles([TriedRelease(sent)]) == TriedHandles([]) == {}
  {
  }

  /** What the closes of channels write, in order. */
  function CloseFrames(acts: seq<Act>): seq<OnWire> {
    if acts == [] then []
    else (if acts[0].TriedClose? then [ClosesChannel(acts[0].handle)] else []) + CloseFrames(acts[1..])
  }

  lemma {:induction false} CloseFramesMore(acts: seq<Act>, more: seq<Act>)
    ensures CloseFrames(acts + more) == CloseFrames(acts) + CloseFrames(more)
  {
    if acts == [] {
      assert [] + more == more;
    } else {
      assert (acts + more)[1..] == acts[1..] + more;
      CloseFramesMore(acts[1..], more);
    }
  }

  lemma NoFrames()
    ensures CloseFrames([]) == []
  {
  }

  lemma FrameMore(acts: seq<Act>, handle: u16)
    ensures CloseFrames(acts + [TriedClose(handle)]) == CloseFrames(acts) + [ClosesChannel(handle)]
  {
    CloseFramesMore(acts, [TriedClose(handle)]);
    assert CloseFrames([TriedClose(handle)]) == [ClosesChannel(handle)] + CloseFrames([]);
  }

  /** The RELEASE of a call: opcode 0x000E and cause 0, as data, on the call's own connection. */
  ghost function ReleaseOn(conn: CtpConnection): CtpPacket
    reads conn
  {
    CtpPacket(0x40, conn.localId, conn.sequence, conn.acknowledgement, [0x00, 0x0E, 0x00], conn.source,
              conn.destination)
  }

  /** What a close has put on the wire: its RELEASE first, if that could be sent, and then a frame for each channel it
      tried to close. */
  predicate WroteClose(before: seq<OnWire>, after: seq<OnWire>, acts: seq<Act>, release: Option<CtpPacket>) {
    if acts != [] && acts[0] == TriedRelease(true) then
      && |after| > |before| && after[..|before|] == before && after[|before|].Ctp? && release.Some?
      && ParseCtpPacket(after[|before|].packet) == Ok(release.value)
      && after[|before| + 1..] == CloseFrames(acts)
    else after == before + CloseFrames(acts)
  }

  lemma OnlyFrames(before: seq<OnWire>, t: Todo, script: seq<Await>, release: Option<CtpPacket>)
    ensures var acts := CloseChannels(t, script).acts; WroteClose(before, before + CloseFrames(acts), acts, release)
  {
    hide ParseCtpPacket;
    OnlyCloses(t, script);
  }

  lemma ReleaseThenFrames(before: seq<OnWire>, after: seq<OnWire>, more: seq<Act>, sent: bool, failed: bool,
                          release: CtpPacket)
    requires Wrote(before, after, failed, release) && (sent <==> !failed && Encodable(release))
    ensures WroteClose(before, after + CloseFrames(more), [TriedRelease(sent)] + more, Some(release))
    ensures WroteClose(before, after, [TriedRelease(sent)], Some(release))
  {
    hide ParseCtpPacket, Encodable;
    var acts := [TriedRelease(sent)] + more;
    assert acts[1..] == more && CloseFrames(acts) == [] + CloseFrames(more);
    assert CloseFrames([TriedRelease(sent)]) == [];
    if sent {
      assert (after + CloseFrames(more))[..|before|] == before;
      assert (after + CloseFrames(more))[|before| + 1..] == CloseFrames(more);
    }
  }

  class VideoCall {
    const session: ViperSession
    var conn: CtpConnection?
    var udpHandle: Option<u16>
    var audioHandle: Option<u16>
    var videoHandle: Option<u16>
    var mediaHandle: Option<u16>
    var remoteMediaHandle: Option<u16>
    var videoQ: seq<Item>
    var videoHandles: set<u16>
    var closed: bool
    var tasks: bool                 // the watchers and the refresher, made together
    var releaseConn: CtpConnection?
    var pendingHandles: seq<u16>
    var lastMedia: Option<real>

    ghost var enqueued: seq<Item>
    ghost var taken: seq<nat>
    ghost var offered: set<u16>
    ghost var acts: seq<Act>

    ghost function View(): Call
      reads this, session`binaryHandlers, session`channelHandler
    {
      Call(session.channelHandler, session.binaryHandlers, audioHandle, videoHandle, mediaHandle, remoteMediaHandle,
           udpHandle, videoHandles, videoQ, closed, enqueued, taken, offered)
    }

    /** The RELEASE that the panel is still owed. */
    ghost function Owed(): Option<CtpPacket>
      reads this`releaseConn, releaseConn
    {
      if releaseConn == null then None else Some(ReleaseOn(releaseConn))
    }

    ghost function ToDo(): Todo
      reads this`tasks, this`releaseConn, this`pendingHandles
    {
      Todo(tasks, releaseConn != null, pendingHandles)
    }

    constructor (session: ViperSession)
      ensures this.session == session && conn == null && ToDo() == Todo(false, false, []) && acts == []
      ensures View() == Fresh.(listening := session.channelHandler, routed := session.binaryHandlers)
      ensures lastMedia == None
    {
      this.session, conn, releaseConn, pendingHandles, tasks := session, null, null, [], false;
      udpHandle, audioHandle, videoHandle, mediaHandle, remoteMediaHandle := None, None, None, None, None;
      videoQ, videoHandles, closed, lastMedia := [], {}, false, None;
      enqueued, taken, offered, acts := [], [], {}, [];
    }

    method Enqueue(item: Item)
      modifies this`videoQ, this`enqueued
      ensures View() == Enqueued(old(View()), item)
    {
      if |videoQ| >= VIDEO_QUEUE_SIZE {
        videoQ := videoQ[1..];
      }
      videoQ := videoQ + [item];
      enqueued := enqueued + [item];
    }

    method OnIncomingChannel(name: string, handle: u16)
      modifies this`remoteMediaHandle, this`videoHandles, this`offered, session`binaryHandlers
      ensures View() == ChannelIn(old(View()), name, handle)
    {
      if name != "RTPC" {
        return;
      }
      remoteMediaHandle := Some(handle);
      videoHandles := videoHandles + {handle};
      session.SetBinaryHandler(handle, true);
      offered := offered + {handle};
    }

    /** A frame: queued, and its time kept, if it came on one of the video handles and parses. */
    method OnMedia(handle: u16, payload: bytes, now: real)
      modifies this`videoQ, this`enqueued, this`lastMedia
      ensures View() == MediaIn(old(View()), handle, payload)
      ensures lastMedia == if handle in videoHandles && ParseRtpPacket(payload).Ok? then Some(now) else old(lastMedia)
    {
      hide ParseRtpPacket;
      if handle in videoHandles {
        match ParseRtpPacket(payload) {
          case Ok(packet) =>
            lastMedia := Some(now);
            Enqueue(Some(packet));
          case ValueError =>
        }
      }
    }

    /** A poll of `_watch_media`: it ends the stream once no video has come for too long. */
    method PollMedia(started: real, now: real) returns (over: bool)
      modifies this`videoQ, this`enqueued
      ensures over == (if lastMedia.None? then now - started > 10.0 else now - lastMedia.value > 2.0)
      ensures View() == if over then React(old(View()), Ends) else old(View())
    {
      over := if lastMedia.None? then now - started > MEDIA_START_TIMEOUT else now - lastMedia.value > MEDIA_SILENCE;
      if over {
        Enqueue(None);
      }
    }

    /** `open`, once the second RTPC channel is there: the panel sends on the handle after it. */
    method VideoChannelOpened(handle: u16)
      requires !closed
      modifies this`videoHandle, this`mediaHandle, this`videoHandles, session`openHandles
      ensures View() == React(old(View()), VideoOpened(handle))
      ensures session.openHandles == old(session.openHandles) + {(handle + 1) % 0x1_0000}
    {
      videoHandle := Some(handle);
      mediaHandle := Some((handle + 1) % 0x1_0000);
      session.ReserveHandle(mediaHandle.value);
      videoHandles := {handle, mediaHandle.value};
    }

    method Get() returns (item: Item)
      requires videoQ != [] && |videoQ| <= |enqueued|
      modifies this`videoQ, this`taken
      ensures View() == TakeOne(old(View())) && item == old(videoQ)[0] && videoQ == old(videoQ)[1..]
      ensures old(QueueOk(View())) ==> QueueOk(View()) && |videoQ| <= |enqueued|
    {
      if QueueOk(View()) {
        TakesKeeps(View());
      }
      item := videoQ[0];
      taken := taken + [|enqueued| - |videoQ|];
      videoQ := videoQ[1..];
    }

    /** `packets`, as far as it gets without having to wait: everything up to the end of the stream. */
    method Packets() returns (yielded: seq<RtpPacket>, ended: bool)
      requires QueueOk(View())
      modifies this`videoQ, this`taken
      ensures QueueOk(View())
      ensures |yielded| + (if ended then 1 else 0) + |videoQ| == |old(videoQ)|
      ensures videoQ == old(videoQ)[|old(videoQ)| - |videoQ|..]
      ensures forall i :: 0 <= i < |yielded| ==> old(videoQ)[i] == Some(yielded[i])
      ensures if ended then old(videoQ)[|yielded|] == None else videoQ == []
    {
      hide QueueOk, TakeOne;
      QueueWithin(View());
      yielded := [];
      while videoQ != []
        invariant QueueOk(View()) && |videoQ| <= |enqueued|
        invariant |yielded| + |videoQ| == |old(videoQ)| && videoQ == old(videoQ)[|yielded|..]
        invariant forall i :: 0 <= i < |yielded| ==> old(videoQ)[i] == Some(yielded[i])
        decreases |videoQ|
      {
        var item := Get();
        if item == None {
          return yielded, true;
        }
        yielded := yielded + [item.value];
      }
      return yielded, false;
    }

    method RouteNowhere(handles: seq<u16>)
      modifies session`binaryHandlers
      ensures session.binaryHandlers == old(session.binaryHandlers) - SetOf(handles)
    {
      var i := 0;
      while i < |handles|
        invariant 0 <= i <= |handles| && session.binaryHandlers == old(session.binaryHandlers) - SetOf(handles[..i])
      {
        session.SetBinaryHandler(handles[i], false);
        assert handles[..i + 1] == handles[..i] + [handles[i]];
        i := i + 1;
      }
      assert handles[..i] == handles;
    }

    method LetGo() returns (handles: seq<u16>)
      modifies this`closed, this`audioHandle, this`videoHandle, this`mediaHandle, this`remoteMediaHandle,
               this`udpHandle, session`channelHandler, session`binaryHandlers
      ensures closed && View() == LetGoOf(old(View())) && handles == Handles(old(View()))
    {
      closed := true;
      session.channelHandler := false;
      handles := Present([audioHandle, videoHandle, mediaHandle, remoteMediaHandle, udpHandle]);
      audioHandle, videoHandle, mediaHandle, remoteMediaHandle, udpHandle := None, None, None, None, None;
      RouteNowhere(handles);
    }

    method Owe(c: CtpConnection?, handles: seq<u16>)
      modifies this`releaseConn, this`pendingHandles, this`acts, this`videoQ, this`enqueued
      ensures View() == Enqueued(old(View()), None)
      ensures releaseConn == c && pendingHandles == handles && acts == old(acts) + [Cleaned]
    {
      releaseConn := c;
      pendingHandles := handles;
      acts := acts + [Cleaned];
      Enqueue(None);
    }

    /** The part of `close` that runs once. */
    method CleanUp()
      requires session.Valid() && !closed && (conn != null ==> session.Knows(conn))
      modifies this, session`connections, session`binaryHandlers, session`channelHandler
      ensures session.Valid() && View() == Cleanup(old(View())) && tasks == old(tasks)
      ensures conn == null && releaseConn == old(conn) && pendingHandles == Handles(old(View()))
      ensures session.connections == (if old(conn) == null then old(session.connections)
                                      else ViperSession.Without(old(session.connections), old(conn)))
      ensures acts == old(acts) + [Cleaned]
    {
      hide Calls.ReleaseConnection, Handles, LetGoOf, Enqueued;
      var handles := LetGo();
      Unfile();
      Owe(conn, handles);
      conn := null;
    }

    method Unfile()
      requires session.Valid() && (conn != null ==> session.Knows(conn))
      modifies session`connections
      ensures session.Valid() && session.binaryHandlers == old(session.binaryHandlers)
      ensures session.connections == (if conn == null then old(session.connections)
                                      else ViperSession.Without(old(session.connections), conn))
    {
      if conn != null {
        session.ReleaseConnection(conn);
      }
    }

    /** One `close`, from wherever the last left off: it cleans up if none has, and then does what RunClose says. */
    method Close(script: seq<Await>) returns (outcome: Outcome)
      requires session.Valid() && (conn != null ==> session.Knows(conn))
      requires releaseConn != null ==> session.Knows(releaseConn)
      modifies this, session`connections, session`openHandles, session`binaryHandlers, session`channelHandler,
               session`wire
      modifies conn, releaseConn
      ensures session.Valid() && closed
      ensures !old(closed) ==>
                var left := if old(conn) == null then CanSend else old(LinkOf(conn));
                var run := RunClose(Todo(old(tasks), old(conn) != null, Handles(old(View()))), left, script);
                && outcome == run.outcome && ToDo() == run.todo && acts == old(acts) + [Cleaned] + run.acts
                && session.openHandles == old(session.openHandles) - TriedHandles(run.acts)
                && View() == Cleanup(old(View())).(routed := Cleanup(old(View())).routed - TriedHandles(run.acts))
                && WroteClose(old(session.wire), session.wire, run.acts,
                              if old(conn) == null then None else Some(old(ReleaseOn(conn))))
                && session.connections == (if old(conn) == null then old(session.connections)
                                           else ViperSession.Without(old(session.connections), old(conn)))
      ensures old(closed) ==>
                var left := if old(releaseConn) == null then CanSend else old(LinkOf(releaseConn));
                var run := RunClose(old(ToDo()), left, script);
                && outcome == run.outcome && ToDo() == run.todo && acts == old(acts) + run.acts
                && session.openHandles == old(session.openHandles) - TriedHandles(run.acts)
                && View() == old(View()).(routed := old(View()).routed - TriedHandles(run.acts))
                && WroteClose(old(session.wire), session.wire, run.acts, old(Owed()))
    {
      if !closed {
        CleanUp();
      }
      outcome := FinishClose(script);
    }

    /** The rest of `close`. */
    method FinishClose(script: seq<Await>) returns (outcome: Outcome)
      modifies this`tasks, this`releaseConn, this`pendingHandles, this`acts
      modifies session`openHandles, session`binaryHandlers,
               session`wire
      modifies releaseConn
      ensures var link := if old(releaseConn) == null then CanSend else old(LinkOf(releaseConn));
              var run := RunClose(old(ToDo()), link, script);
              && outcome == run.outcome && ToDo() == run.todo && acts == old(acts) + run.acts
              && session.openHandles == old(session.openHandles) - TriedHandles(run.acts)
              && session.binaryHandlers == old(session.binaryHandlers) - TriedHandles(run.acts)
              && WroteClose(old(session.wire), session.wire, run.acts, old(Owed()))
    {
      var left := EndTheTasks(script);
      if left.None? {
        return CutShort;
      }
      outcome := SendTheRelease(left.value);
    }

    method EndTheTasks(script: seq<Await>) returns (left: Option<seq<Await>>)
      modifies this`tasks
      ensures left == EndTasks(if old(tasks) then 3 else 0, script) && tasks == (old(tasks) && left.None?)
    {
      var rest, n := script, if tasks then 3 else 0;
      while n > 0
        invariant EndTasks(if tasks then 3 else 0, script) == EndTasks(n, rest)
      {
        if rest == [] || rest[0].Cut? {
          return None;
        }
        rest, n := rest[1..], n - 1;
      }
      tasks := false;
      left := Some(rest);
    }

    method SendTheRelease(script: seq<Await>) returns (outcome: Outcome)
      modifies this`releaseConn, this`pendingHandles, this`acts, session`openHandles, session`binaryHandlers,
               session`wire
      modifies releaseConn
      ensures var link := if old(releaseConn) == null then CanSend else old(LinkOf(releaseConn));
              var run := SendRelease(old(ToDo()), link, script);
              && outcome == run.outcome && ToDo() == run.todo && acts == old(acts) + run.acts
              && session.openHandles == old(session.openHandles) - TriedHandles(run.acts)
              && session.binaryHandlers == old(session.binaryHandlers) - TriedHandles(run.acts)
              && WroteClose(old(session.wire), session.wire, run.acts, old(Owed()))
    {
      hide TriedHandles, CloseChannels, ParseCtpPacket, WroteClose, Wrote, CloseFrames, Address;
      var left := script;
      if releaseConn != null {
        assert RELEASE_BODY == [0x00, 0x0E, 0x00];
        var sending := session.Transmit(releaseConn, RELEASE_BODY, FLAG_DATA);
        acts := acts + [TriedRelease(sending.Write?)];
        TriedSame([], sending.Write?);
        TriedSame(CloseChannels(ToDo().(release := false),
                                if sending.Write? && left != [] then left[1..] else left).acts,
                  sending.Write?);
        ReleaseThenFrames(old(session.wire), session.wire,
                          CloseChannels(ToDo().(release := false),
                                        if sending.Write? && left != [] then left[1..] else left).acts,
                          sending.Write?, releaseConn.failed, ReleaseOn(releaseConn));
        if sending.BadPacket? {
          return Raised;
        }
        if sending.Write? {
          if left == [] || left[0].Cut? {
            return CutShort;
          }
          if left[0].Done? {
            releaseConn.SendDone(RELEASE_BODY);
          }
          left := left[1..];
        }
        releaseConn := null;
      } else {
        OnlyFrames(session.wire, ToDo(), left, None);
      }
      outcome := FinishChannels(left);
    }

    method FinishChannels(script: seq<Await>) returns (outcome: Outcome)
      modifies this`pendingHandles, this`acts, session`openHandles, session`binaryHandlers,
               session`wire
      ensures var run := CloseChannels(old(ToDo()), script);
              && outcome == run.outcome && ToDo() == run.todo && acts == old(acts) + run.acts
              && session.openHandles == old(session.openHandles) - TriedHandles(run.acts)
              && session.binaryHandlers == old(session.binaryHandlers) - TriedHandles(run.acts)
              && session.wire == old(session.wire) + CloseFrames(run.acts)
    {
      hide TriedHandles, CloseFrames;
      var left := script;
      ghost var tried := [];
      TriedSame([], false);
      NoFrames();
      while pendingHandles != []
        invariant acts == old(acts) + tried
        invariant session.openHandles == old(session.openHandles) - TriedHandles(tried)
        invariant session.binaryHandlers == old(session.binaryHandlers) - TriedHandles(tried)
        invariant session.wire == old(session.wire) + CloseFrames(tried)
        invariant CloseChannels(old(ToDo()), script) == Preceded(tried, CloseChannels(ToDo(), left))
        decreases |pendingHandles|
      {
        var handle := pendingHandles[0];
        ghost var was, before := CloseChannels(ToDo(), left), tried;
        session.BeginCloseChannel(handle);
        TriedMore(old(session.openHandles), tried, handle);
        TriedMore(old(session.binaryHandlers), tried, handle);
        FrameMore(tried, handle);
        tried := tried + [TriedClose(handle)];
        acts := acts + [TriedClose(handle)];
        if left == [] || left[0].Cut? {
          return CutShort;
        }
        left := left[1..];
        pendingHandles := pendingHandles[1..];
        assert was == Preceded([TriedClose(handle)], CloseChannels(ToDo(), left));
        PrecededTwice(before, [TriedClose(handle)], CloseChannels(ToDo(), left));
      }
      assert tried + [] == tried;
      outcome := Complete;
    }
  }
}
