/** What reaches the connections (viper/session.py): every packet that the reader has taken for one, in order, and what
    is acknowledged of it. The reader's part is told here from the packets alone. */
module Deliveries {
  import opened Bytes
  import opened Ctp
  import opened Calls
  import opened CallProperties
  import opened CallEnds

  /** Where a packet belongs: to the connection its id leads to, unless it is an INVITE with another call id there;
      else, if it is an INVITE, to a connection of its own; else nowhere. */
  datatype Place = Holding(conn: nat) | NewCall | Nowhere

  function PlaceOf(s: Session, p: CtpPacket): Place {
    var held := Holder(s, p.connection);
    if held.Some?
       && !(IsInvite(p) && held.value < |s.conns| && s.conns[held.value].callId != Some(InviteCallId(p.body)))
    then Holding(held.value)
    else if IsInvite(p) then NewCall
    else Nowhere
  }

  /** The packet that this step takes off the wire. */
  function Received(s: Session, step: Step): Option<CtpPacket> {
    if !step.Receive? || !s.reader.Reading? then None
    else match ParseCtpPacket(step.payload)
      case Ok(p) => Some(p)
      case ValueError => None
  }

  /** The connection and the packet whose acknowledgement the reader is waiting for. */
  ghost function Awaited(steps: seq<Step>): Option<(nat, CtpPacket)> {
    if steps == [] then None
    else AwaitedAfter(Exec(steps[..|steps| - 1]), Awaited(steps[..|steps| - 1]), steps[|steps| - 1])
  }

  function AwaitedAfter(s: Session, before: Option<(nat, CtpPacket)>, step: Step): Option<(nat, CtpPacket)> {
    match step
    case ReaderResumes(_) => None
    case Receive(_, _, _) =>
      (match Received(s, step)
       case None => before
       case Some(p) =>
         match PlaceOf(s, p)
         case Holding(i) => if p.body == [] then before else Some((i, p))
         case NewCall => Some((|s.conns|, p))
         case Nowhere => before)
    case _ => before
  }

  /** What a step hands to connection `i`: a packet for it that needs no acknowledgement, or one whose acknowledgement
      came back sent. */
  function Delivery(s: Session, awaited: Option<(nat, CtpPacket)>, step: Step, i: nat): seq<CtpPacket> {
    var got := Received(s, step);
    if got.Some? && PlaceOf(s, got.value) == Holding(i) && got.value.body == [] then [got.value]
    else if step == ReaderResumes(Sent) && awaited.Some? && awaited.value.0 == i then [awaited.value.1]
    else []
  }

  ghost function Delivered(steps: seq<Step>, i: nat): seq<CtpPacket> {
    if steps == [] then []
    else
      var front, last := steps[..|steps| - 1], steps[|steps| - 1];
      Delivered(front, i) + Delivery(Exec(front), Awaited(front), last, i)
  }

  /** What its owner, or its watcher, takes from its inbox in a step. */
  function Takings(s: Session, step: Step, i: nat): seq<CtpPacket> {
    if (step == Take(i) || step == WatcherReceives(i)) && Enabled(s, step) && i < |s.conns| && s.conns[i].inbox != []
       && s.conns[i].inbox[0].Some? then [s.conns[i].inbox[0].value]
    else []
  }

  ghost function Taken(steps: seq<Step>, i: nat): seq<CtpPacket> {
    if steps == [] then []
    else Taken(steps[..|steps| - 1], i) + Takings(Exec(steps[..|steps| - 1]), steps[|steps| - 1], i)
  }

  function Entries(ps: seq<CtpPacket>): (entries: seq<Entry>)
    ensures |entries| == |ps| && forall k :: 0 <= k < |ps| ==> entries[k] == Some(ps[k])
  {
    seq(|ps|, k requires 0 <= k < |ps| => Some(ps[k]))
  }

  /** What `fail` leaves behind the rest. */
  function Sentinel(c: Conn): seq<Entry> {
    if c.failed then [None] else []
  }

  // ---------------------------------------------------------------- one step

  /** The reader waits for what the packets say it does. */
  predicate ReaderAwaits(s: Session, awaited: Option<(nat, CtpPacket)>) {
    match s.reader
    case Acking(i, p) => awaited == Some((i, p))
    case AckingInvite(i, p) => awaited == Some((i, p)) && IsInvite(p)
    case _ => awaited == None
  }

  /** A connection after a step that took `takings` from it and handed it `delivery`. */
  predicate Moves(c: Conn, c': Conn, takings: seq<CtpPacket>, delivery: seq<CtpPacket>) {
    && (c.failed ==> c'.failed && delivery == [])
    && |takings| <= |c.inbox| && c.inbox[..|takings|] == Entries(takings)
    && c'.inbox == c.inbox[|takings|..] + Entries(delivery) + (if c'.failed && !c.failed then [None] else [])
  }

  lemma Unmoved(c: Conn, c': Conn)
    requires c'.inbox == c.inbox && c'.failed == c.failed
    ensures Moves(c, c', [], [])
  {
    assert c.inbox[0..] + Entries([]) + [] == c.inbox;
  }

  /** What a step does to connection `i` and to the reader. */
  predicate StepMoves(s: Session, awaited: Option<(nat, CtpPacket)>, step: Step, s': Session, i: nat)
    requires i < |s.conns| <= |s'.conns|
  {
    && ReaderAwaits(s', AwaitedAfter(s, awaited, step))
    && Moves(s.conns[i], s'.conns[i], Takings(s, step, i), Delivery(s, awaited, step, i))
  }

  lemma PlaceIsDispatch(s: Session, p: CtpPacket)
    requires InRange(s)
    ensures PlaceOf(s, p) == (if p.connection in s.table && !Displaces(p, s.conns[s.table[p.connection]])
                              then Holding(s.table[p.connection])
                              else if IsInvite(p) then NewCall else Nowhere)
    ensures p.connection in s.table && Displaces(p, s.conns[s.table[p.connection]]) ==> IsInvite(p) && p.IsSyn()
  {
    hide InviteCallId;
  }

  lemma Parsed(payload: bytes)
    requires ParseCtpPacket(payload).Ok?
    ensures var p := ParseCtpPacket(payload).value; |p.connection| == 2 && (IsInvite(p) ==> p.IsSyn())
  {
  }

  lemma AcceptMoves(s: Session, p: CtpPacket, ours: string, firstSeq: byte, i: nat)
    requires s.reader.Reading? && |p.connection| == 2 && p.IsSyn() && i < |s.conns|
    ensures var s' := AcceptInbound(s, p, ours, firstSeq);
            && |s.conns| <= |s'.conns| && s'.conns[i] == s.conns[i]
            && ReaderAwaits(s', if IsInvite(p) then Some((|s.conns|, p)) else None)
  {
    hide RingEventOf;
  }

  lemma ReceiveMoves(s: Session, step: Step, i: nat)
    requires step.Receive? && s.reader.Reading? && Inv(s) && InRange(s) && i < |s.conns|
    ensures |s.conns| <= |Apply(s, step).conns| && StepMoves(s, None, step, Apply(s, step), i)
  {
    hide Inv, RingEventOf, Moves, ParseCtpPacket, PlaceOf, Displaces, AcceptInbound, Displace, HandleIncoming, IsInvite;
    match ParseCtpPacket(step.payload)
    case ValueError => Unmoved(s.conns[i], s.conns[i]);
    case Ok(p) =>
      Parsed(step.payload);
      PlaceIsDispatch(s, p);
      if p.connection in s.table {
        var j := s.table[p.connection];
        HeldIsAlive(s, p.connection);
        if Displaces(p, s.conns[j]) {
          DisplacedMoves(s, j, i);
          AcceptMoves(Displace(s, j), p, step.ours, step.firstSeq, i);
        } else {
          HandleMoves(s, j, p, i);
        }
      } else if p.IsSyn() {
        AcceptMoves(s, p, step.ours, step.firstSeq, i);
        Unmoved(s.conns[i], s.conns[i]);
      } else {
        Unmoved(s.conns[i], s.conns[i]);
      }
  }

  lemma HeldIsAlive(s: Session, id: bytes)
    requires Inv(s) && id in s.table
    ensures s.table[id] < |s.conns| && !s.conns[s.table[id]].failed
  {
    var open := OpenCalls(s.trace).value;
    assert IdOk(s, open, id);
    assert CallOk(s, open, s.table[id]);
  }

  lemma DisplacedMoves(s: Session, j: nat, i: nat)
    requires s.reader.Reading? && j < |s.conns| && i < |s.conns|
    ensures var s' := Displace(s, j);
            && s'.reader.Reading? && |s'.conns| == |s.conns|
            && (!s.conns[j].failed ==> Moves(s.conns[i], s'.conns[i], [], []))
  {
    if i != j {
      Unmoved(s.conns[i], Displace(s, j).conns[i]);
    } else {
      assert s.conns[i].inbox[0..] + Entries([]) == s.conns[i].inbox;
    }
  }

  lemma HandleMoves(s: Session, j: nat, p: CtpPacket, i: nat)
    requires s.reader.Reading? && j < |s.conns| && i < |s.conns| && !s.conns[j].failed
    ensures var s' := HandleIncoming(s, j, p);
            && |s'.conns| == |s.conns| && ReaderAwaits(s', if p.body == [] then None else Some((j, p)))
            && Moves(s.conns[i], s'.conns[i], [], if i == j && p.body == [] then [p] else [])
  {
    var c, c' := s.conns[i], HandleIncoming(s, j, p).conns[i];
    if i == j && p.body == [] {
      assert c.inbox[0..] + Entries([p]) + [] == c.inbox + [Some(p)];
    } else {
      Unmoved(c, c');
    }
  }

  lemma ResumeMoves(s: Session, awaited: Option<(nat, CtpPacket)>, o: SendOutcome, i: nat)
    requires Inv(s) && InRange(s) && i < |s.conns| && ReaderAwaits(s, awaited) && Enabled(s, ReaderResumes(o))
    ensures var s' := Apply(s, ReaderResumes(o));
            |s'.conns| == |s.conns| && StepMoves(s, awaited, ReaderResumes(o), s', i)
  {
    hide Inv, Moves, RingEventOf;
    var s' := Apply(s, ReaderResumes(o));
    if s.reader.Acking? || s.reader.AckingInvite? {
      var j, p := awaited.value.0, awaited.value.1;
      AckedIsAlive(s);
      PutMoves(s, j, p, i);
      Unmoved(s.conns[i], s.conns[i]);
    } else {
      Unmoved(s.conns[i], s'.conns[i]);
    }
  }

  lemma AckedIsAlive(s: Session)
    requires Inv(s)
    ensures s.reader.Acking? ==> s.reader.conn < |s.conns| && !s.conns[s.reader.conn].failed
    ensures s.reader.AckingInvite? ==> s.reader.call < |s.conns| && !s.conns[s.reader.call].failed
  {
    if s.reader.AckingInvite? {
      assert CallOk(s, OpenCalls(s.trace).value, s.reader.call);
    }
  }

  lemma PutMoves(s: Session, j: nat, p: CtpPacket, i: nat)
    requires j < |s.conns| && i < |s.conns| && !s.conns[j].failed
    ensures |Put(s, j, p).conns| == |s.conns|
    ensures Moves(s.conns[i], Put(s, j, p).conns[i], [], if i == j then [p] else [])
  {
    if i == j {
      assert s.conns[i].inbox[0..] + Entries([p]) + [] == s.conns[i].inbox + [Some(p)];
    } else {
      Unmoved(s.conns[i], s.conns[i]);
    }
  }

  lemma TakeMoves(s: Session, awaited: Option<(nat, CtpPacket)>, step: Step, i: nat)
    requires Inv(s) && InRange(s) && i < |s.conns| && ReaderAwaits(s, awaited) && Enabled(s, step)
    requires step.Take? || step.WatcherReceives?
    ensures |Apply(s, step).conns| == |s.conns| && StepMoves(s, awaited, step, Apply(s, step), i)
  {
    hide Inv, Moves, FinishWatch, Apply, WatcherTakes, PlaceOf;
    var j := if step.Take? then step.conn else step.call;
    TakeReads(s, step);
    var c, c' := s.conns[i], Apply(s, step).conns[i];
    if i != j {
      Unmoved(c, c');
    } else if c.inbox[0].Some? {
      NextMoves(c, c');
    } else {
      SentinelAlone(s, i);
      assert c.inbox[1..] + [None] == c.inbox;
      Unmoved(c, c');
    }
  }

  /** Taking an entry changes one inbox, and puts the sentinel back. */
  lemma TakeReads(s: Session, step: Step)
    requires InRange(s) && Enabled(s, step) && (step.Take? || step.WatcherReceives?)
    ensures var j := if step.Take? then step.conn else step.call;
            var c, s' := s.conns[j], Apply(s, step);
            && j < |s.conns| && c.inbox != [] && s'.reader == s.reader
            && s'.conns == s.conns[j := c.(inbox := c.inbox[1..] + if c.inbox[0].None? then [None] else [])]
  {
    if step.WatcherReceives? {
      WatcherReads(s, step.call);
    } else {
      var c := s.conns[step.conn];
      assert c.inbox[1..] + [] == c.inbox[1..];
    }
  }

  lemma WatcherReads(s: Session, j: nat)
    requires j < |s.conns| && s.conns[j].event.Some? && s.conns[j].inbox != []
    ensures var c, s' := s.conns[j], WatcherTakes(s, j);
            && s'.reader == s.reader
            && s'.conns == s.conns[j := c.(inbox := c.inbox[1..] + if c.inbox[0].None? then [None] else [])]
  {
    var c := s.conns[j];
    assert c.inbox[0].Some? ==> c.inbox[1..] + [] == c.inbox[1..];
  }

  lemma NextMoves(c: Conn, c': Conn)
    requires c.inbox != [] && c.inbox[0].Some? && c' == c.(inbox := c.inbox[1..] + [])
    ensures Moves(c, c', [c.inbox[0].value], [])
  {
    assert c.inbox[..1] == Entries([c.inbox[0].value]);
    assert c.inbox[1..] + Entries([]) + [] == c.inbox[1..];
  }

  lemma SentinelAlone(s: Session, i: nat)
    requires Inv(s) && i < |s.conns| && s.conns[i].inbox != [] && s.conns[i].inbox[0].None?
    ensures s.conns[i].inbox == [None]
  {
    assert CallOk(s, OpenCalls(s.trace).value, i) && InboxShape(s.conns[i]);
  }

  lemma TeardownMoves(s: Session, i: nat)
    requires Inv(s) && i < |s.conns|
    ensures |FinishTeardown(s).conns| == |s.conns| && FinishTeardown(s).reader == s.reader
    ensures Moves(s.conns[i], FinishTeardown(s).conns[i], [], [])
  {
    hide FinishTeardown;
    TornDownAll(s);
    TornDownTo(s, i);
    assert CallOk(s, OpenCalls(s.trace).value, i);
    if Holds(s, i) {
      assert s.conns[i].inbox[0..] + Entries([]) == s.conns[i].inbox;
    } else {
      Unmoved(s.conns[i], s.conns[i]);
    }
  }

  lemma StepMovesRight(s: Session, awaited: Option<(nat, CtpPacket)>, step: Step, i: nat)
    requires Inv(s) && InRange(s) && i < |s.conns| && ReaderAwaits(s, awaited)
    ensures |s.conns| <= |Apply(s, step).conns| && StepMoves(s, awaited, step, Apply(s, step), i)
  {
    hide Inv, Moves, DispatchCtp, FinishTeardown, RingEventOf, InviteAckEnds, AckEnds, WatcherTakes, FinishWatch,
         WatcherCancelled, ReleaseConnection, NewConnection, PlaceOf;
    if !Enabled(s, step) {
      Unmoved(s.conns[i], s.conns[i]);
    } else {
      match step
      case Receive(_, _, _) => ReceiveMoves(s, step, i);
      case ReaderResumes(o) => ResumeMoves(s, awaited, o, i);
      case Take(_) => TakeMoves(s, awaited, step, i);
      case WatcherReceives(_) => TakeMoves(s, awaited, step, i);
      case TeardownEnds => TeardownMoves(s, i);
      case _ =>
        OthersMoveNothing(s, step, i);
        Unmoved(s.conns[i], Apply(s, step).conns[i]);
    }
  }

  lemma OthersMoveNothing(s: Session, step: Step, i: nat)
    requires InRange(s) && i < |s.conns| && Enabled(s, step)
    requires !step.Receive? && !step.ReaderResumes? && !step.Take? && !step.WatcherReceives? && !step.TeardownEnds?
    ensures var s' := Apply(s, step);
            && |s.conns| <= |s'.conns| && s'.conns[i].inbox == s.conns[i].inbox
            && s'.conns[i].failed == s.conns[i].failed
            && (s'.reader == s.reader || (s.reader.Reading? && s'.reader.Stopped?))
  {
  }

  // ---------------------------------------------------------------- every run

  lemma {:induction false} ReaderAlwaysAwaits(steps: seq<Step>)
    ensures ReaderAwaits(Exec(steps), Awaited(steps))
  {
    hide AwaitedAfter, ReaderAwaits, Apply;
    if steps == [] {
      AtFirst();
    } else {
      var front, last := steps[..|steps| - 1], steps[|steps| - 1];
      ReaderAlwaysAwaits(front);
      InvInRange(Exec(front));
      StepAwaits(Exec(front), Awaited(front), last);
    }
  }

  lemma AtFirst()
    ensures ReaderAwaits(Start, None)
  {
  }

  lemma StepAwaits(s: Session, awaited: Option<(nat, CtpPacket)>, step: Step)
    requires Inv(s) && InRange(s) && ReaderAwaits(s, awaited)
    ensures ReaderAwaits(Apply(s, step), AwaitedAfter(s, awaited, step))
  {
    hide Inv, DispatchCtp, FinishTeardown, RingEventOf;
    if step.Receive? && s.reader.Reading? {
      ReceiveAwaits(s, step);
    } else if step.TeardownEnds? {
      TornDownAll(s);
    }
  }

  lemma ReceiveAwaits(s: Session, step: Step)
    requires Inv(s) && InRange(s) && step.Receive? && s.reader.Reading?
    ensures ReaderAwaits(Apply(s, step), AwaitedAfter(s, None, step))
  {
    hide Inv, RingEventOf;
    match ParseCtpPacket(step.payload)
    case ValueError =>
    case Ok(p) =>
      PlaceIsDispatch(s, p);
      hide ParseCtpPacket, PlaceOf, Displaces;
      if p.connection in s.table {
        HeldIsAlive(s, p.connection);
      }
  }

  /** A connection that is not there yet has been handed nothing. */
  lemma {:induction false} NothingBefore(steps: seq<Step>, i: nat)
    requires |Exec(steps).conns| <= i
    ensures Delivered(steps, i) == [] && Taken(steps, i) == []
  {
    if steps != [] {
      var front, last := steps[..|steps| - 1], steps[|steps| - 1];
      hide Apply, PlaceOf, ReaderAwaits;
      InvInRange(Exec(front));
      ReaderAlwaysAwaits(front);
      FewerBefore(Exec(front), last);
      NothingBefore(front, i);
      PlacesAreOld(Exec(front), Awaited(front));
      NoneHeldThere(Exec(front), last, i);
    }
  }

  lemma FewerBefore(s: Session, step: Step)
    requires InRange(s)
    ensures |s.conns| <= |Apply(s, step).conns|
    ensures forall i :: |s.conns| <= i < |Apply(s, step).conns| ==>
                          Apply(s, step).conns[i].inbox == [] && !Apply(s, step).conns[i].failed
  {
    hide DispatchCtp, FinishTeardown, RingEventOf, OutboundConn;
    if step.Receive? && s.reader.Reading? {
      ReceiveGrows(s, step.payload, step.ours, step.firstSeq);
      AppliedReceive(s, step);
    } else if step.Open? && Enabled(s, step) {
      OutboundIsEmpty(step);
    } else if Enabled(s, step) {
      StepForgets(s, step);
    }
  }

  lemma OutboundIsEmpty(step: Step)
    requires step.Open? && |step.local| == 2
    ensures var c := OutboundConn(step.local, step.ours, step.destination, step.callId, step.firstSeq, step.firstAck);
            c.inbox == [] && !c.failed
  {
  }

  lemma ReceiveGrows(s: Session, payload: bytes, ours: string, firstSeq: byte)
    requires InRange(s) && s.reader.Reading?
    ensures var s' := DispatchCtp(s, payload, ours, firstSeq);
            && |s.conns| <= |s'.conns|
            && forall i :: |s.conns| <= i < |s'.conns| ==> s'.conns[i].inbox == [] && !s'.conns[i].failed
  {
    hide Displaces, RingEventOf, ParseCtpPacket;
  }

  lemma PlacesAreOld(s: Session, awaited: Option<(nat, CtpPacket)>)
    requires InRange(s) && ReaderAwaits(s, awaited)
    ensures awaited.Some? ==> awaited.value.0 < |s.conns|
  {
  }

  lemma NoneHeldThere(s: Session, step: Step, i: nat)
    requires InRange(s) && |s.conns| <= i
    ensures Received(s, step).Some? ==> PlaceOf(s, Received(s, step).value) != Holding(i)
  {
  }

  /** In every run and for every connection: what has been taken from its inbox, and then what is in it, is just what
      was handed to it, in order: every packet the reader took for it that had no body, or whose acknowledgement came
      back sent, the INVITE that opened it among them; and the sentinel is behind all that once it has failed. */
  lemma {:induction false} EveryPacketArrives(steps: seq<Step>, i: nat)
    requires i < |Exec(steps).conns|
    ensures var c := Exec(steps).conns[i];
            Entries(Taken(steps, i)) + c.inbox == Entries(Delivered(steps, i)) + Sentinel(c)
  {
    hide Apply, Moves, ReaderAwaits, Delivery, Takings, AwaitedAfter;
    if steps != [] {
      var front, last := steps[..|steps| - 1], steps[|steps| - 1];
      var s, awaited := Exec(front), Awaited(front);
      InvInRange(s);
      ReaderAlwaysAwaits(front);
      if i < |s.conns| {
        EveryPacketArrives(front, i);
        StepMovesRight(s, awaited, last, i);
        ArrivesStill(s.conns[i], Exec(steps).conns[i], Taken(front, i), Delivered(front, i), Takings(s, last, i),
                     Delivery(s, awaited, last, i));
      } else {
        NothingBefore(front, i);
        FirstSight(s, awaited, last, i);
      }
    }
  }

  lemma ArrivesStill(c: Conn, c': Conn, taken: seq<CtpPacket>, delivered: seq<CtpPacket>, takings: seq<CtpPacket>,
                     delivery: seq<CtpPacket>)
    requires Entries(taken) + c.inbox == Entries(delivered) + Sentinel(c) && Moves(c, c', takings, delivery)
    ensures Entries(taken + takings) + c'.inbox == Entries(delivered + delivery) + Sentinel(c')
  {
    var rest, more := c.inbox[|takings|..], Entries(delivery);
    var last: seq<Entry> := if c'.failed && !c.failed then [None] else [];
    assert Entries(taken + takings) == Entries(taken) + Entries(takings);
    assert Entries(delivered + delivery) == Entries(delivered) + more;
    assert c.inbox == Entries(takings) + rest;
    assert Entries(taken + takings) + c'.inbox == Entries(taken) + c.inbox + more + last;
    if c.failed {
      assert more == [] && last == [];
      assert Entries(delivered) + Sentinel(c) + [] + [] == Entries(delivered) + [] + Sentinel(c);
    } else {
      assert Entries(delivered) + [] + more + last == Entries(delivered) + more + last;
    }
  }

  lemma FirstSight(s: Session, awaited: Option<(nat, CtpPacket)>, step: Step, i: nat)
    requires Inv(s) && InRange(s) && ReaderAwaits(s, awaited) && |s.conns| <= i < |Apply(s, step).conns|
    ensures Takings(s, step, i) == [] && Delivery(s, awaited, step, i) == []
    ensures Apply(s, step).conns[i].inbox == [] && !Apply(s, step).conns[i].failed
  {
    hide Inv, PlaceOf;
    PlacesAreOld(s, awaited);
    NoneHeldThere(s, step, i);
    FewerBefore(s, step);
  }

  // ---------------------------------------------------------------- what is acknowledged

  /** The acknowledgement number a connection is to send: that after the latest packet with a body that came for it, or
      that opened it; or the one it was opened with. */
  ghost function LastHeard(steps: seq<Step>, i: nat): byte {
    if steps == [] then 0
    else
      var front, last := steps[..|steps| - 1], steps[|steps| - 1];
      HeardAfter(Exec(front), LastHeard(front, i), last, i)
  }

  function HeardAfter(s: Session, before: byte, step: Step, i: nat): byte {
    var got := Received(s, step);
    if got.Some? && ((PlaceOf(s, got.value) == Holding(i) && got.value.body != [])
                     || (PlaceOf(s, got.value).NewCall? && i == |s.conns|)) then (got.value.sequence + 1) % 0x100
    else if step.Open? && Enabled(s, step) && i == |s.conns| then step.firstAck
    else before
  }

  lemma {:induction false} AcknowledgesTheLatest(steps: seq<Step>, i: nat)
    requires i < |Exec(steps).conns|
    ensures Exec(steps).conns[i].acknowledgement == LastHeard(steps, i)
  {
    hide Apply, HeardAfter;
    if steps != [] {
      var front, last := steps[..|steps| - 1], steps[|steps| - 1];
      InvInRange(Exec(front));
      if i < |Exec(front).conns| {
        AcknowledgesTheLatest(front, i);
      }
      StepAcks(Exec(front), LastHeard(front, i), last, i);
    }
  }

  lemma StepAcks(s: Session, before: byte, step: Step, i: nat)
    requires Inv(s) && InRange(s) && i < |Apply(s, step).conns|
    requires i < |s.conns| ==> s.conns[i].acknowledgement == before
    ensures Apply(s, step).conns[i].acknowledgement == HeardAfter(s, before, step, i)
  {
    hide Inv, DispatchCtp, FinishTeardown, RingEventOf, InviteAckEnds, AckEnds, WatcherTakes, FinishWatch,
         WatcherCancelled, ReleaseConnection, NewConnection, OutboundConn, PlaceOf;
    if step.Receive? && s.reader.Reading? {
      AppliedReceive(s, step);
      ReceiveAcks(s, before, step, i);
    } else if step.TeardownEnds? {
      TornDownAll(s);
      if i < |s.conns| {
        TornDownTo(s, i);
      }
    } else if Enabled(s, step) {
      OthersAck(s, step, i);
    }
  }

  lemma OthersAck(s: Session, step: Step, i: nat)
    requires InRange(s) && Enabled(s, step) && !step.Receive? && !step.TeardownEnds? && i < |Apply(s, step).conns|
    ensures Apply(s, step).conns[i].acknowledgement
            == if i < |s.conns| then s.conns[i].acknowledgement else step.firstAck
    ensures i >= |s.conns| ==> step.Open? && i == |s.conns|
  {
    hide RingEventOf, ParseCtpPacket, DispatchCtp, FinishTeardown;
    if step.ReaderResumes? {
      ResumeAcks(s, step, i);
    } else if step.WatcherReceives? {
      hide FinishWatch;
      WatcherReads(s, step.call);
    }
  }

  lemma ResumeAcks(s: Session, step: Step, i: nat)
    requires InRange(s) && Enabled(s, step) && step.ReaderResumes?
    ensures |Apply(s, step).conns| == |s.conns|
    ensures i < |s.conns| ==> Apply(s, step).conns[i].acknowledgement == s.conns[i].acknowledgement
  {
    hide RingEventOf;
  }

  lemma ReceiveAcks(s: Session, before: byte, step: Step, i: nat)
    requires Inv(s) && InRange(s) && step.Receive? && s.reader.Reading?
    requires i < |DispatchCtp(s, step.payload, step.ours, step.firstSeq).conns|
    requires i < |s.conns| ==> s.conns[i].acknowledgement == before
    ensures DispatchCtp(s, step.payload, step.ours, step.firstSeq).conns[i].acknowledgement
            == HeardAfter(s, before, step, i)
  {
    hide Inv, RingEventOf, ParseCtpPacket, PlaceOf, Displaces, AcceptInbound, Displace, HandleIncoming, IsInvite;
    match ParseCtpPacket(step.payload)
    case ValueError =>
    case Ok(p) =>
      Parsed(step.payload);
      PlaceIsDispatch(s, p);
      if p.connection in s.table {
        var j := s.table[p.connection];
        HeldIsAlive(s, p.connection);
        if Displaces(p, s.conns[j]) {
          DisplaceAcks(s, j);
          AcceptAcks(Displace(s, j), p, step.ours, step.firstSeq);
        } else {
          HandleAcks(s, j, p);
        }
      } else if p.IsSyn() {
        AcceptAcks(s, p, step.ours, step.firstSeq);
      }
  }

  /** The acknowledgement numbers of all connections. */
  predicate AckedLike(s: Session, s': Session) {
    |s'.conns| >= |s.conns|
    && forall i :: 0 <= i < |s.conns| ==> s'.conns[i].acknowledgement == s.conns[i].acknowledgement
  }

  lemma DisplaceAcks(s: Session, j: nat)
    requires j < |s.conns|
    ensures AckedLike(s, Displace(s, j)) && |Displace(s, j).conns| == |s.conns|
  {
  }

  lemma AcceptAcks(s: Session, p: CtpPacket, ours: string, firstSeq: byte)
    requires |p.connection| == 2 && p.IsSyn()
    ensures var s' := AcceptInbound(s, p, ours, firstSeq);
            && AckedLike(s, s') && |s'.conns| == |s.conns| + (if IsInvite(p) then 1 else 0)
            && (IsInvite(p) ==> s'.conns[|s.conns|].acknowledgement == (p.sequence + 1) % 0x100)
  {
    hide RingEventOf;
  }

  lemma HandleAcks(s: Session, j: nat, p: CtpPacket)
    requires j < |s.conns|
    ensures var s' := HandleIncoming(s, j, p);
            && |s'.conns| == |s.conns|
            && (forall i :: 0 <= i < |s.conns| ==>
                  s'.conns[i].acknowledgement
                  == if i == j && p.body != [] then (p.sequence + 1) % 0x100 else s.conns[i].acknowledgement)
  {
  }

  /** A repeated answer to our registration: opcode 0x0041, not opening anything, on the connection that has registered.
      */
  predicate IsRenewal(c: Conn, p: CtpPacket) {
    c.persistent && |p.body| >= 2 && p.body[0] == 0 && p.body[1] == 0x41 && !HasBit(p.flags, 0x80)
  }

  function RenewedBy(s: Session, awaited: Option<(nat, CtpPacket)>, step: Step): nat {
    if step == ReaderResumes(Sent) && awaited.Some? && awaited.value.0 < |s.conns|
       && IsRenewal(s.conns[awaited.value.0], awaited.value.1) then 1 else 0
  }

  ghost function Renewals(steps: seq<Step>): nat {
    if steps == [] then 0
    else
      var front, last := steps[..|steps| - 1], steps[|steps| - 1];
      Renewals(front) + RenewedBy(Exec(front), Awaited(front), last)
  }

  /** Each of those that is acknowledged counts as a renewal and is answered, and nothing else is. */
  lemma {:induction false} RenewalsAreCounted(steps: seq<Step>)
    ensures Exec(steps).renewals == Renewals(steps)
    ensures steps != [] ==>
              var front, last := steps[..|steps| - 1], steps[|steps| - 1];
              RenewedBy(Exec(front), Awaited(front), last) == 1 ==> Exec(steps).reader.AnsweringRenewal?
  {
    hide Apply, RenewedBy, ReaderAwaits, AwaitedAfter;
    if steps != [] {
      var front, last := steps[..|steps| - 1], steps[|steps| - 1];
      InvInRange(Exec(front));
      ReaderAlwaysAwaits(front);
      RenewalsAreCounted(front);
      StepRenews(Exec(front), Awaited(front), last);
    }
  }

  lemma StepRenews(s: Session, awaited: Option<(nat, CtpPacket)>, step: Step)
    requires Inv(s) && InRange(s) && ReaderAwaits(s, awaited)
    ensures Apply(s, step).renewals == s.renewals + RenewedBy(s, awaited, step)
    ensures RenewedBy(s, awaited, step) == 1 ==> Apply(s, step).reader.AnsweringRenewal?
  {
    hide Inv, DispatchCtp, FinishTeardown, RingEventOf;
    if step.Receive? && s.reader.Reading? {
      ReceiveRenewsNothing(s, step);
    } else if step.TeardownEnds? {
      TornDownAll(s);
    } else {
      AckedIsAlive(s);
    }
  }

  lemma ReceiveRenewsNothing(s: Session, step: Step)
    requires InRange(s) && step.Receive? && s.reader.Reading?
    ensures Apply(s, step).renewals == s.renewals
  {
    hide Displaces, RingEventOf, ParseCtpPacket;
  }
}
