/** The CTP connection table and the inbound calls that land on it (viper/session.py), over one TCP lifetime.

    One reader task routes packets, one watcher task follows each inbound call, and the owners of outgoing connections
    come and go. A step is what one of them does between two awaits; every interleaving is a sequence of steps, and a
    step that is not possible where it stands does nothing. */
module Calls {
  import opened Bytes
  import opened Ctp

  datatype RingEvent = RingEvent(
    caller: string, callee: string, connection: bytes, callId: bytes, body: bytes, origin: string, tag: bytes)

  /** _ring_event: unreadable fields stay empty. */
  function RingEventOf(p: CtpPacket): RingEvent {
    match ParseInvite(p.body)
    case Ok(invite) =>
      RingEvent(p.source, p.destination, p.connection, invite.callId, p.body, invite.origin, invite.tag)
    case ValueError =>
      RingEvent(p.source, p.destination, p.connection, [], p.body, "", [])
  }

  /** A queue entry; None is the sentinel that `fail` leaves. */
  type Entry = Option<CtpPacket>

  datatype Conn = Conn(
    localId: bytes,
    peerId: bytes,
    source: string,
    destination: string,
    sequence: byte,
    acknowledgement: byte,
    inbox: seq<Entry>,
    persistent: bool,
    callId: Option<bytes>,
    event: Option<RingEvent>,
    failed: bool,
    endReported: bool)

  /** What the callbacks were told, each report with the number of the connection it is about. */
  datatype Report =
    | Ring(call: nat, event: RingEvent)
    | End(call: nat, event: RingEvent, cause: Option<byte>)

  datatype Reader =
    | Reading
    | AckingInvite(call: nat, packet: CtpPacket)
    | AckingStray
    | Acking(conn: nat, packet: CtpPacket)
    | AnsweringRenewal
    | Stopped

  datatype Watcher = NotStarted | Waiting | SendingFin(cause: Option<byte>) | Finished

  /** How a send that a task was waiting for came back: done; ViperError, OSError or ValueError; any other exception;
      or the task was cancelled. */
  datatype SendOutcome = Sent | Refused | Uncaught | Cancelled

  datatype Session = Session(
    conns: seq<Conn>,             // every connection object of this TCP lifetime, in order of creation
    table: map<bytes, nat>,       // _connections
    registration: Option<nat>,    // _registration
    reader: Reader,
    watchers: map<nat, Watcher>,  // the _watch_inbound_call tasks
    renewals: nat,
    trace: seq<Report>,
    lost: set<nat>)               // calls nobody follows any more although their end was not reported

  const Start := Session([], map[], None, Reading, map[], 0, [], {})

  function Holder(s: Session, id: bytes): Option<nat> {
    if id in s.table then Some(s.table[id]) else None
  }

  // ---------------------------------------------------------------- operations

  function Fail(c: Conn): Conn {
    c.(failed := true, inbox := c.inbox + [None])
  }

  /** Whether `p` is a new inbound call on an id that `c` holds. */
  predicate Displaces(p: CtpPacket, c: Conn) {
    p.IsSyn() && p.Opcode() == Some(OP_INVITE) && c.callId != Some(InviteCallId(p.body))
  }

  /** The id of `i` leads nowhere any more. */
  function Unfiled(s: Session, i: nat): Session
    requires i < |s.conns|
  {
    s.(table := s.table - {s.conns[i].peerId},
       registration := if s.registration == Some(i) then None else s.registration)
  }

  /** Whoever waits on `i` is woken, and if it was a call its end is reported. */
  function Silenced(s: Session, i: nat): Session
    requires i < |s.conns|
  {
    var c := s.conns[i];
    s.(conns := s.conns[i := Fail(c).(endReported := c.endReported || c.event.Some?)],
       trace := if c.event.Some? then s.trace + [End(i, c.event.value, None)] else s.trace)
  }

  function Displace(s: Session, i: nat): Session
    requires i < |s.conns|
  {
    Silenced(Unfiled(s, i), i)
  }

  function Put(s: Session, i: nat, p: CtpPacket): Session
    requires i < |s.conns|
  {
    s.(conns := s.conns[i := s.conns[i].(inbox := s.conns[i].inbox + [Some(p)])])
  }

  function Acknowledge(c: Conn, p: CtpPacket): Conn {
    c.(acknowledgement := (p.sequence + 1) % 0x100)
  }

  /** A packet for a connection in the table: up to the acknowledgement if it has a body, else all of it. */
  function HandleIncoming(s: Session, i: nat, p: CtpPacket): Session
    requires i < |s.conns|
  {
    if p.body == [] then Put(s, i, p)
    else
      var s' := s.(conns := s.conns[i := Acknowledge(s.conns[i], p)]);
      if s.conns[i].failed then s' else s'.(reader := Acking(i, p))
  }

  function InboundConn(p: CtpPacket, ours: string, firstSeq: byte): Conn
    requires |p.connection| == 2
  {
    Acknowledge(Conn(PeerConnectionId(p.connection), p.connection, if ours != "" then ours else p.destination, p.source,
                     firstSeq, 0, [], false, Some(RingEventOf(p).callId), Some(RingEventOf(p)), false, false), p)
  }

  /** A connection the panel opened: a ring if it is an INVITE, else only an acknowledgement. */
  function AcceptInbound(s: Session, p: CtpPacket, ours: string, firstSeq: byte): Session
    requires |p.connection| == 2
  {
    if p.Opcode() != Some(OP_INVITE) then
      if p.body == [] then s else s.(reader := AckingStray)
    else
      var i := |s.conns|;
      NewConnection(s.(trace := s.trace + [Ring(i, RingEventOf(p))], reader := AckingInvite(i, p)),
                    InboundConn(p, ours, firstSeq))
  }

  function DispatchPacket(s: Session, p: CtpPacket, ours: string, firstSeq: byte): Session
    requires forall k :: k in s.table ==> s.table[k] < |s.conns|
    requires |p.connection| == 2
  {
    if p.connection in s.table then
      var i := s.table[p.connection];
      if Displaces(p, s.conns[i]) then AcceptInbound(Displace(s, i), p, ours, firstSeq) else HandleIncoming(s, i, p)
    else if p.IsSyn() then AcceptInbound(s, p, ours, firstSeq)
    else s
  }

  function DispatchCtp(s: Session, payload: bytes, ours: string, firstSeq: byte): Session
    requires forall k :: k in s.table ==> s.table[k] < |s.conns|
  {
    match ParseCtpPacket(payload)
    case ValueError => s
    case Ok(p) => DispatchPacket(s, p, ours, firstSeq)
  }

  /** With a packet in the inbox: a repeated registration answer is a renewal, to be answered with a FIN. */
  function AnswerRenewal(s: Session, i: nat, p: CtpPacket): Session
    requires i < |s.conns|
  {
    if s.conns[i].persistent && p.Opcode() == Some(OP_REGISTER_RESPONSE) && !p.IsSyn() then
      s.(renewals := s.renewals + 1, reader := if s.conns[i].failed then Reading else AnsweringRenewal)
    else s.(reader := Reading)
  }

  /** The reader's acknowledgement of a packet for a known connection came back. */
  function AckEnds(s: Session, i: nat, p: CtpPacket, o: SendOutcome): Session
    requires i < |s.conns|
  {
    match o
    case Sent => AnswerRenewal(Put(s, i, p), i, p)
    case Cancelled => s.(reader := Stopped)
    case _ => s.(reader := Reading)
  }

  /** The reader's acknowledgement of a new call came back: it is followed, or its end is reported at once, or, where
      nothing catches what was raised, it is left open with nobody following it. */
  function InviteAckEnds(s: Session, i: nat, p: CtpPacket, o: SendOutcome): Session
    requires i < |s.conns|
  {
    match o
    case Sent => Put(s, i, p).(reader := Reading, watchers := s.watchers[i := NotStarted])
    case Refused =>
      s.(reader := Reading, table := s.table - {p.connection}, trace := s.trace + [End(i, RingEventOf(p), None)])
    case Uncaught => s.(reader := Reading, lost := s.lost + {i})
    case Cancelled => s.(reader := Stopped, lost := s.lost + {i})
  }

  function ReleaseConnection(s: Session, i: nat): Session
    requires i < |s.conns|
  {
    if Holder(s, s.conns[i].peerId) == Some(i) then s.(table := s.table - {s.conns[i].peerId}) else s
  }

  /** The `finally` of a watcher. */
  function FinishWatch(s: Session, i: nat, cause: Option<byte>): Session
    requires i < |s.conns| && s.conns[i].event.Some?
  {
    var s' := ReleaseConnection(s, i).(watchers := s.watchers[i := Finished]);
    if s.conns[i].endReported then s' else s'.(trace := s.trace + [End(i, s.conns[i].event.value, cause)])
  }

  /** A waiting watcher takes the next entry of its connection's inbox. */
  function WatcherTakes(s: Session, i: nat): Session
    requires i < |s.conns| && s.conns[i].event.Some? && s.conns[i].inbox != []
  {
    var c := s.conns[i];
    match c.inbox[0]
    case None => FinishWatch(s.(conns := s.conns[i := c.(inbox := c.inbox[1..] + [None])]), i, None)
    case Some(p) =>
      var s' := s.(conns := s.conns[i := c.(inbox := c.inbox[1..])]);
      if p.Opcode() == Some(OP_RELEASE) || p.IsFin() then
        if c.failed then FinishWatch(s', i, p.ReleaseCause())
        else s'.(watchers := s.watchers[i := SendingFin(p.ReleaseCause())])
      else s'
  }

  /** A task cancelled before its first step never runs its body; later, its `finally` runs. */
  function WatcherCancelled(s: Session, i: nat): Session
    requires i < |s.conns| && s.conns[i].event.Some? && i in s.watchers
  {
    match s.watchers[i]
    case NotStarted =>
      s.(watchers := s.watchers[i := Finished], lost := if s.conns[i].endReported then s.lost else s.lost + {i})
    case Waiting => FinishWatch(s, i, None)
    case SendingFin(cause) => FinishWatch(s, i, cause)
    case Finished => s
  }

  /** An id `_new_connection` may settle on: below 0x7FFF, not zero, and neither form of it in use. */
  predicate FreeLocalId(s: Session, local: bytes) {
    |local| == 2 && 1 <= ReadU16Be(local, 0) <= 0x7FFE
    && PeerConnectionId(local) !in s.table && local !in s.table
  }

  function OutboundConn(local: bytes, ours: string, destination: string, callId: Option<bytes>,
                        firstSeq: byte, firstAck: byte): Conn
    requires |local| == 2
  {
    Conn(local, PeerConnectionId(local), ours, destination, firstSeq, firstAck, [], false, callId, None, false, false)
  }

  function NewConnection(s: Session, c: Conn): Session {
    s.(conns := s.conns + [c], table := s.table[c.peerId := |s.conns|])
  }

  /** The last part of a teardown, after the socket has closed. */
  function FinishTeardown(s: Session): Session {
    s.(conns := seq(|s.conns|, i requires 0 <= i < |s.conns| =>
                      if Holder(s, s.conns[i].peerId) == Some(i) then Fail(s.conns[i]) else s.conns[i]),
       table := map[], registration := None)
  }

  // ---------------------------------------------------------------- steps

  datatype Step =
    | Receive(payload: bytes, ours: string, firstSeq: byte)
    | ReaderResumes(outcome: SendOutcome)
    | ReaderStops
    | WatcherStarts(call: nat)
    | WatcherReceives(call: nat)
    | WatcherTimesOut(call: nat)
    | WatcherFinSent(call: nat)
    | WatcherIsCancelled(call: nat)
    | Open(local: bytes, ours: string, destination: string, callId: Option<bytes>, firstSeq: byte, firstAck: byte)
    | Take(conn: nat)
    | Registered(conn: nat)
    | Release(conn: nat)
    | TeardownEnds

  predicate Outgoing(s: Session, i: nat) {
    i < |s.conns| && s.conns[i].event.None?
  }

  predicate Watched(s: Session, i: nat) {
    i < |s.conns| && s.conns[i].event.Some? && i in s.watchers
  }

  predicate InRange(s: Session) {
    && (forall k :: k in s.table ==> s.table[k] < |s.conns|)
    && (s.reader.AckingInvite? ==> s.reader.call < |s.conns|)
    && (s.reader.Acking? ==> s.reader.conn < |s.conns|)
  }

  predicate Enabled(s: Session, step: Step) {
    match step
    case Receive(_, _, _) => s.reader.Reading?
    case ReaderResumes(_) => !s.reader.Reading? && !s.reader.Stopped?
    case ReaderStops => s.reader.Reading?
    case WatcherStarts(i) => Watched(s, i) && s.watchers[i].NotStarted?
    case WatcherReceives(i) => Watched(s, i) && s.watchers[i].Waiting? && s.conns[i].inbox != []
    case WatcherTimesOut(i) => Watched(s, i) && s.watchers[i].Waiting?
    case WatcherFinSent(i) => Watched(s, i) && s.watchers[i].SendingFin?
    case WatcherIsCancelled(i) => Watched(s, i)
    case Open(local, _, _, _, _, _) => FreeLocalId(s, local)
    case Take(i) => Outgoing(s, i) && s.conns[i].inbox != [] && s.conns[i].inbox[0].Some?
    case Registered(i) => Outgoing(s, i)
    case Release(i) => Outgoing(s, i)
    case TeardownEnds => s.reader.Stopped?
  }

  function Apply(s: Session, step: Step): Session
    requires InRange(s)
  {
    if !Enabled(s, step) then s
    else match step
      case Receive(payload, ours, firstSeq) => DispatchCtp(s, payload, ours, firstSeq)
      case ReaderResumes(o) =>
        (match s.reader
         case AckingInvite(i, p) => InviteAckEnds(s, i, p, o)
         case Acking(i, p) => AckEnds(s, i, p, o)
         case _ => s.(reader := if o.Cancelled? then Stopped else Reading))
      case ReaderStops => s.(reader := Stopped)
      case WatcherStarts(i) => s.(watchers := s.watchers[i := Waiting])
      case WatcherReceives(i) => WatcherTakes(s, i)
      case WatcherTimesOut(i) => FinishWatch(s, i, None)
      case WatcherFinSent(i) => FinishWatch(s, i, s.watchers[i].cause)
      case WatcherIsCancelled(i) => WatcherCancelled(s, i)
      case Open(local, ours, destination, callId, firstSeq, firstAck) =>
        NewConnection(s, OutboundConn(local, ours, destination, callId, firstSeq, firstAck))
      case Take(i) => s.(conns := s.conns[i := s.conns[i].(inbox := s.conns[i].inbox[1..])])
      case Registered(i) => s.(conns := s.conns[i := s.conns[i].(persistent := true)], registration := Some(i))
      case Release(i) => ReleaseConnection(s, i)
      case TeardownEnds => FinishTeardown(s)
  }

  // ---------------------------------------------------------------- pairing

  /** The calls left open by a trace, by connection id; None if some report came out of turn: a ring on an id that
      has an open call, or an end that is not that of the open call. */
  function OpenCalls(trace: seq<Report>): Option<map<bytes, Report>> {
    if trace == [] then Some(map[])
    else
      var before := OpenCalls(trace[..|trace| - 1]);
      var last := trace[|trace| - 1];
      var id := last.event.connection;
      if before.None? then None
      else if last.Ring? then
        if id in before.value then None else Some(before.value[id := last])
      else if id in before.value && before.value[id] == Ring(last.call, last.event) then Some(before.value - {id})
      else None
  }

  predicate InboxShape(c: Conn) {
    && (forall j :: 0 <= j < |c.inbox| - 1 ==> c.inbox[j].Some?)
    && (c.failed <==> c.inbox != [] && c.inbox[|c.inbox| - 1].None?)
  }

  predicate ConnShape(c: Conn) {
    && |c.peerId| == 2 && |c.localId| == 2 && c.localId == PeerConnectionId(c.peerId)
    && (c.event.Some? ==> c.event.value.connection == c.peerId && c.callId == Some(c.event.value.callId))
    && InboxShape(c)
  }

  /** Whether the call on connection `i` has rung and not ended. */
  predicate Ringing(s: Session, open: map<bytes, Report>, i: nat)
    requires i < |s.conns|
  {
    var c := s.conns[i];
    c.event.Some? && c.peerId in open && open[c.peerId] == Ring(i, c.event.value)
  }

  predicate Holds(s: Session, i: nat)
    requires i < |s.conns|
  {
    Holder(s, s.conns[i].peerId) == Some(i)
  }

  predicate BeingWatched(s: Session, i: nat) {
    i in s.watchers && !s.watchers[i].Finished?
  }

  predicate BeingAcked(s: Session, i: nat) {
    s.reader.AckingInvite? && s.reader.call == i
  }

  /** Whether somebody will still report the end of call `i`. */
  predicate Followed(s: Session, i: nat) {
    BeingAcked(s, i) || BeingWatched(s, i)
  }

  /** A call that has rung and not ended is still in the table while the reader lives, and is followed or given up;
      a call in the table has rung and not ended; nor has one that somebody will report the end of. */
  predicate CallOk(s: Session, open: map<bytes, Report>, i: nat)
    requires i < |s.conns|
  {
    var c := s.conns[i];
    && ConnShape(c)
    && (Ringing(s, open, i) ==>
          !c.endReported && (Holds(s, i) || s.reader.Stopped?) && (Followed(s, i) || i in s.lost))
    && (Holds(s, i) ==> !c.failed && (c.event.Some? ==> Ringing(s, open, i)))
    && (BeingWatched(s, i) && !c.endReported ==> Ringing(s, open, i))
    && (i in s.watchers ==> c.event.Some?)
  }

  /** What the table says of an id names a connection with that id, and so does what the trace leaves open. */
  predicate IdOk(s: Session, open: map<bytes, Report>, k: bytes) {
    && (k in s.table ==> s.table[k] < |s.conns| && s.conns[s.table[k]].peerId == k)
    && (k in open ==> open[k].Ring? && open[k].call < |s.conns|
                      && open[k] == Ring(open[k].call, open[k].event)
                      && s.conns[open[k].call].peerId == k && s.conns[open[k].call].event == Some(open[k].event))
  }

  predicate ReaderOk(s: Session) {
    && (s.reader.AckingInvite? ==>
          var i, p := s.reader.call, s.reader.packet;
          && i < |s.conns| && i !in s.watchers && s.conns[i].event == Some(RingEventOf(p)) && Holds(s, i))
    && (s.reader.Acking? ==> s.reader.conn < |s.conns| && !s.conns[s.reader.conn].failed)
  }

  ghost predicate Shape(s: Session, open: map<bytes, Report>) {
    && (forall k :: k in s.table || k in open ==> IdOk(s, open, k))
    && (forall i :: 0 <= i < |s.conns| ==> CallOk(s, open, i))
    && (forall i :: i in s.watchers || i in s.lost ==> i < |s.conns|)
    && ReaderOk(s)
  }

  ghost predicate Inv(s: Session) {
    && OpenCalls(s.trace).Some? && Shape(s, OpenCalls(s.trace).value)
    && forall j :: 0 <= j < |s.trace| ==> s.trace[j].call < |s.conns|
  }

  lemma OpenCallsAppend(trace: seq<Report>, r: Report)
    ensures var before, after := OpenCalls(trace), OpenCalls(trace + [r]);
            var id := r.event.connection;
            && (before.None? ==> after.None?)
            && (before.Some? && r.Ring? ==> after == if id in before.value then None else Some(before.value[id := r]))
            && (before.Some? && r.End? ==>
                  after == (if id in before.value && before.value[id] == Ring(r.call, r.event)
                            then Some(before.value - {id}) else None))
  {
    assert (trace + [r])[..|trace|] == trace;
  }

  /** The invariant from its parts. */
  lemma Conclude(s: Session, open: map<bytes, Report>)
    requires OpenCalls(s.trace) == Some(open) && Shape(s, open)
    requires forall j :: 0 <= j < |s.trace| ==> s.trace[j].call < |s.conns|
    ensures Inv(s)
  {
  }

  lemma DisplacedCall(s: Session, open: map<bytes, Report>, i: nat, j: nat)
    requires s.reader.Reading? && i < |s.conns| && j < |s.conns| && Holds(s, i)
    requires CallOk(s, open, i) && CallOk(s, open, j)
    ensures CallOk(Displace(s, i), if s.conns[i].event.Some? then open - {s.conns[i].peerId} else open, j)
  {
    var c' := Displace(s, i).conns[j];
    assert InboxShape(c');
  }

  lemma DisplaceShape(s: Session, i: nat, open: map<bytes, Report>)
    requires Shape(s, open) && s.reader.Reading? && i < |s.conns| && Holds(s, i)
    ensures Shape(Displace(s, i), if s.conns[i].event.Some? then open - {s.conns[i].peerId} else open)
  {
    var s', open' := Displace(s, i), if s.conns[i].event.Some? then open - {s.conns[i].peerId} else open;
    assert CallOk(s, open, i);
    forall j: nat | j < |s'.conns| ensures CallOk(s', open', j) {
      assert CallOk(s, open, j);
      DisplacedCall(s, open, i, j);
    }
    forall k | k in s'.table || k in open' ensures IdOk(s', open', k) {
      assert IdOk(s, open, k);
    }
  }

  lemma DisplaceKeeps(s: Session, i: nat)
    requires Inv(s) && s.reader.Reading? && i < |s.conns| && Holds(s, i)
    ensures Inv(Displace(s, i)) && Displace(s, i).reader.Reading?
    ensures s.conns[i].peerId !in Displace(s, i).table
  {
    var c, open := s.conns[i], OpenCalls(s.trace).value;
    DisplaceShape(s, i, open);
    if c.event.Some? {
      assert CallOk(s, open, i);
      OpenCallsAppend(s.trace, End(i, c.event.value, None));
    }
  }

  lemma AcceptedCall(s: Session, open: map<bytes, Report>, p: CtpPacket, ours: string, firstSeq: byte, j: nat)
    requires s.reader.Reading? && |p.connection| == 2 && p.connection !in s.table && p.connection !in open
    requires p.Opcode() == Some(OP_INVITE) && j <= |s.conns|
    requires j < |s.conns| ==> CallOk(s, open, j)
    requires |s.conns| !in s.watchers
    ensures CallOk(AcceptInbound(s, p, ours, firstSeq), open[p.connection := Ring(|s.conns|, RingEventOf(p))], j)
  {
  }

  lemma AcceptShape(s: Session, open: map<bytes, Report>, p: CtpPacket, ours: string, firstSeq: byte)
    requires Shape(s, open)
    requires s.reader.Reading? && |p.connection| == 2 && p.connection !in s.table && p.connection !in open
    requires p.Opcode() == Some(OP_INVITE)
    ensures Shape(AcceptInbound(s, p, ours, firstSeq), open[p.connection := Ring(|s.conns|, RingEventOf(p))])
  {
    var s', open' := AcceptInbound(s, p, ours, firstSeq), open[p.connection := Ring(|s.conns|, RingEventOf(p))];
    forall j: nat | j < |s'.conns| ensures CallOk(s', open', j) {
      assert j < |s.conns| ==> CallOk(s, open, j);
      AcceptedCall(s, open, p, ours, firstSeq, j);
    }
    forall k | k in s'.table || k in open' ensures IdOk(s', open', k) {
      assert k != p.connection ==> IdOk(s, open, k);
    }
  }

  lemma OpenIsHeld(s: Session, open: map<bytes, Report>, id: bytes)
    requires Shape(s, open) && s.reader.Reading?
    ensures id in open ==> id in s.table
  {
    if id in open {
      assert IdOk(s, open, id) && CallOk(s, open, open[id].call);
    }
  }

  lemma AcceptKeeps(s: Session, p: CtpPacket, ours: string, firstSeq: byte)
    requires Inv(s) && s.reader.Reading? && |p.connection| == 2 && p.connection !in s.table
    ensures Inv(AcceptInbound(s, p, ours, firstSeq))
  {
    var open := OpenCalls(s.trace).value;
    if p.Opcode() == Some(OP_INVITE) {
      OpenIsHeld(s, open, p.connection);
      AcceptShape(s, open, p, ours, firstSeq);
      OpenCallsAppend(s.trace, Ring(|s.conns|, RingEventOf(p)));
    } else {
      Same(s, AcceptInbound(s, p, ours, firstSeq));
    }
  }

  /** Steps that report nothing and change neither the table nor what is followed, and of connections only their
      queues and counters. */
  ghost predicate Quiet(s: Session, s': Session) {
    && |s'.conns| == |s.conns| && s'.table == s.table && s'.trace == s.trace && s'.lost == s.lost
    && s'.watchers.Keys == s.watchers.Keys
    && (forall i :: i in s.watchers ==> s'.watchers[i].Finished? == s.watchers[i].Finished?)
    && (s'.reader.AckingInvite? || s.reader.AckingInvite? ==> s'.reader == s.reader)
    && (s.reader.Stopped? ==> s'.reader.Stopped?)
    && (forall i :: 0 <= i < |s.conns| ==> SameCall(s.conns[i], s'.conns[i]))
  }

  predicate SameCall(c: Conn, c': Conn) {
    && c'.peerId == c.peerId && c'.localId == c.localId && c'.event == c.event && c'.callId == c.callId
    && c'.endReported == c.endReported && c'.failed == c.failed
    && (InboxShape(c) ==> InboxShape(c'))
  }

  lemma Same(s: Session, s': Session)
    requires Inv(s) && Quiet(s, s')
    requires s'.reader.Acking? ==> s'.reader.conn < |s'.conns| && !s'.conns[s'.reader.conn].failed
    ensures Inv(s')
  {
    var open := OpenCalls(s.trace).value;
    forall j: nat | j < |s'.conns| ensures CallOk(s', open, j) {
      assert CallOk(s, open, j) && SameCall(s.conns[j], s'.conns[j]);
    }
    forall k | k in s'.table || k in open ensures IdOk(s', open, k) {
      assert IdOk(s, open, k);
      if k in s.table {
        assert SameCall(s.conns[s.table[k]], s'.conns[s.table[k]]);
      }
      if k in open {
        assert SameCall(s.conns[open[k].call], s'.conns[open[k].call]);
      }
    }
    if s.reader.AckingInvite? {
      assert SameCall(s.conns[s.reader.call], s'.conns[s.reader.call]);
    }
    Conclude(s', open);
  }

  lemma HandleKeeps(s: Session, i: nat, p: CtpPacket)
    requires Inv(s) && s.reader.Reading? && i < |s.conns| && Holds(s, i)
    ensures Inv(HandleIncoming(s, i, p))
  {
    assert CallOk(s, OpenCalls(s.trace).value, i);
    Same(s, HandleIncoming(s, i, p));
  }

  lemma DispatchKeeps(s: Session, payload: bytes, ours: string, firstSeq: byte)
    requires Inv(s) && s.reader.Reading?
    ensures Inv(DispatchCtp(s, payload, ours, firstSeq))
  {
    match ParseCtpPacket(payload)
    case ValueError =>
    case Ok(p) =>
      var held := Holder(s, p.connection);
      assert held.Some? ==> IdOk(s, OpenCalls(s.trace).value, p.connection);
      if held.Some? && Displaces(p, s.conns[held.value]) {
        DisplaceKeeps(s, held.value);
        AcceptKeeps(Displace(s, held.value), p, ours, firstSeq);
      } else if held.Some? {
        HandleKeeps(s, held.value, p);
      } else if p.IsSyn() {
        AcceptKeeps(s, p, ours, firstSeq);
      }
  }

  lemma AckKeeps(s: Session, o: SendOutcome)
    requires Inv(s) && s.reader.Acking?
    ensures Inv(AckEnds(s, s.reader.conn, s.reader.packet, o))
  {
    Same(s, AckEnds(s, s.reader.conn, s.reader.packet, o));
  }

  /** Reporting the end of call `i`, if it was still due, and letting go of its id. */
  ghost predicate Settles(s: Session, s': Session, i: nat) {
    && i < |s.conns| && s.conns[i].event.Some? && s'.conns == s.conns && s'.lost == s.lost
    && s'.table == ReleaseConnection(s, i).table
    && (s.conns[i].endReported ==> s'.trace == s.trace)
    && (!s.conns[i].endReported ==>
          exists cause :: s'.trace == s.trace + [End(i, s.conns[i].event.value, cause)])
    && s'.watchers == (if BeingWatched(s, i) then s.watchers[i := Finished] else s.watchers)
    && s'.reader == (if BeingAcked(s, i) then Reading else s.reader)
  }

  lemma SettledCall(s: Session, s': Session, open: map<bytes, Report>, open': map<bytes, Report>, i: nat, j: nat)
    requires Settles(s, s', i) && j < |s.conns| && CallOk(s, open, i) && CallOk(s, open, j)
    requires Followed(s, i)
    requires s.conns[i].endReported || Ringing(s, open, i)
    requires open' == if s.conns[i].endReported then open else open - {s.conns[i].peerId}
    ensures CallOk(s', open', j)
  {
    if j != i && s.conns[j].peerId == s.conns[i].peerId {
      assert Holder(s', s.conns[j].peerId) == Some(j) ==> Holder(s, s.conns[j].peerId) == Some(j);
      assert Ringing(s', open', j) ==> Ringing(s, open, j);
    }
  }

  lemma SettlesShape(s: Session, s': Session, open: map<bytes, Report>, i: nat)
    requires Shape(s, open) && Settles(s, s', i) && Followed(s, i)
    requires s.conns[i].endReported || Ringing(s, open, i)
    ensures Shape(s', if s.conns[i].endReported then open else open - {s.conns[i].peerId})
  {
    var open' := if s.conns[i].endReported then open else open - {s.conns[i].peerId};
    assert CallOk(s, open, i);
    forall j: nat | j < |s'.conns| ensures CallOk(s', open', j) {
      assert CallOk(s, open, j);
      SettledCall(s, s', open, open', i, j);
    }
    forall k | k in s'.table || k in open' ensures IdOk(s', open', k) {
      assert IdOk(s, open, k);
    }
  }

  lemma SettlesKeeps(s: Session, s': Session, i: nat)
    requires Inv(s) && Settles(s, s', i) && Followed(s, i)
    ensures Inv(s')
  {
    var c, open := s.conns[i], OpenCalls(s.trace).value;
    assert CallOk(s, open, i);
    SettlesShape(s, s', open, i);
    if !c.endReported {
      var cause :| s'.trace == s.trace + [End(i, c.event.value, cause)];
      OpenCallsAppend(s.trace, End(i, c.event.value, cause));
    }
  }

  lemma InviteAckKeeps(s: Session, o: SendOutcome)
    requires Inv(s) && s.reader.AckingInvite?
    ensures Inv(InviteAckEnds(s, s.reader.call, s.reader.packet, o))
  {
    var i, p := s.reader.call, s.reader.packet;
    var s', open := InviteAckEnds(s, i, p, o), OpenCalls(s.trace).value;
    assert CallOk(s, open, i);
    if o.Refused? {
      assert s'.trace == s.trace + [End(i, s.conns[i].event.value, None)];
      SettlesKeeps(s, s', i);
    } else if o.Sent? {
      InviteAckedKeeps(s);
    } else {
      forall j: nat | j < |s'.conns| ensures CallOk(s', open, j) {
        assert CallOk(s, open, j);
      }
      forall k | k in s'.table || k in open ensures IdOk(s', open, k) {
        assert IdOk(s, open, k);
      }
      Conclude(s', open);
    }
  }

  lemma InviteAckedKeeps(s: Session)
    requires Inv(s) && s.reader.AckingInvite?
    ensures Inv(InviteAckEnds(s, s.reader.call, s.reader.packet, Sent))
  {
    InviteAckedShape(s, OpenCalls(s.trace).value);
  }

  lemma InviteAckedCall(s: Session, open: map<bytes, Report>, j: nat)
    requires ReaderOk(s) && s.reader.AckingInvite?
    requires j < |s.conns| && CallOk(s, open, j) && CallOk(s, open, s.reader.call)
    ensures CallOk(InviteAckEnds(s, s.reader.call, s.reader.packet, Sent), open, j)
  {
    var c' := InviteAckEnds(s, s.reader.call, s.reader.packet, Sent).conns[j];
    assert InboxShape(c');
  }

  lemma InviteAckedShape(s: Session, open: map<bytes, Report>)
    requires Shape(s, open) && s.reader.AckingInvite?
    ensures Shape(InviteAckEnds(s, s.reader.call, s.reader.packet, Sent), open)
  {
    var s' := InviteAckEnds(s, s.reader.call, s.reader.packet, Sent);
    assert CallOk(s, open, s.reader.call);
    forall j: nat | j < |s'.conns| ensures CallOk(s', open, j) {
      assert CallOk(s, open, j);
      InviteAckedCall(s, open, j);
    }
    forall k | k in s'.table || k in open ensures IdOk(s', open, k) {
      assert IdOk(s, open, k);
    }
  }

  lemma FinishWatchKeeps(s: Session, i: nat, cause: Option<byte>)
    requires Inv(s) && Watched(s, i) && !s.watchers[i].Finished?
    ensures Inv(FinishWatch(s, i, cause))
  {
    var s' := FinishWatch(s, i, cause);
    if !s.conns[i].endReported {
      assert s'.trace == s.trace + [End(i, s.conns[i].event.value, cause)];
    }
    SettlesKeeps(s, s', i);
  }

  lemma ConsumeKeeps(s: Session, i: nat)
    requires Inv(s) && i < |s.conns| && s.conns[i].inbox != [] && s.conns[i].inbox[0].Some?
    ensures Inv(s.(conns := s.conns[i := s.conns[i].(inbox := s.conns[i].inbox[1..])]))
  {
    Same(s, s.(conns := s.conns[i := s.conns[i].(inbox := s.conns[i].inbox[1..])]));
  }

  lemma WatcherTakesKeeps(s: Session, i: nat)
    requires Inv(s) && Watched(s, i) && s.watchers[i].Waiting? && s.conns[i].inbox != []
    ensures Inv(WatcherTakes(s, i))
  {
    var c := s.conns[i];
    if c.inbox[0].None? {
      assert c.inbox[1..] + [None] == c.inbox by {
        assert CallOk(s, OpenCalls(s.trace).value, i);
      }
      assert s.(conns := s.conns[i := c]) == s;
      FinishWatchKeeps(s, i, None);
    } else {
      var s' := s.(conns := s.conns[i := c.(inbox := c.inbox[1..])]);
      var cause := c.inbox[0].value.ReleaseCause();
      ConsumeKeeps(s, i);
      FinishWatchKeeps(s', i, cause);
      SendingFinKeeps(s', i, cause);
    }
  }

  lemma SendingFinKeeps(s: Session, i: nat, cause: Option<byte>)
    requires Inv(s) && Watched(s, i) && s.watchers[i].Waiting?
    ensures Inv(s.(watchers := s.watchers[i := SendingFin(cause)]))
  {
    Same(s, s.(watchers := s.watchers[i := SendingFin(cause)]));
  }

  lemma WatcherCancelledKeeps(s: Session, i: nat)
    requires Inv(s) && Watched(s, i)
    ensures Inv(WatcherCancelled(s, i))
  {
    if s.watchers[i].Waiting? || s.watchers[i].SendingFin? {
      FinishWatchKeeps(s, i, if s.watchers[i].Waiting? then None else s.watchers[i].cause);
    } else if s.watchers[i].NotStarted? {
      var s', open := WatcherCancelled(s, i), OpenCalls(s.trace).value;
      forall j: nat | j < |s'.conns| ensures CallOk(s', open, j) {
        assert CallOk(s, open, j);
      }
      forall k | k in s'.table || k in open ensures IdOk(s', open, k) {
        assert IdOk(s, open, k);
      }
      Conclude(s', open);
    }
  }

  lemma NewConnectionKeeps(s: Session, c: Conn)
    requires Inv(s) && ConnShape(c) && !c.failed && !c.endReported && c.event.None? && c.peerId !in s.table
    ensures Inv(NewConnection(s, c))
  {
    var s', open := NewConnection(s, c), OpenCalls(s.trace).value;
    forall j: nat | j < |s'.conns| ensures CallOk(s', open, j) {
      if j < |s.conns| {
        assert CallOk(s, open, j);
      }
    }
    forall k | k in s'.table || k in open ensures IdOk(s', open, k) {
      assert k != c.peerId || k in open ==> IdOk(s, open, k);
    }
    Conclude(s', open);
  }

  lemma ReleaseKeeps(s: Session, i: nat)
    requires Inv(s) && Outgoing(s, i)
    ensures Inv(ReleaseConnection(s, i))
  {
    var s', open := ReleaseConnection(s, i), OpenCalls(s.trace).value;
    forall j: nat | j < |s'.conns| ensures CallOk(s', open, j) {
      assert CallOk(s, open, j);
    }
    forall k | k in s'.table || k in open ensures IdOk(s', open, k) {
      assert IdOk(s, open, k);
    }
    Conclude(s', open);
  }

  lemma TeardownKeeps(s: Session)
    requires Inv(s) && s.reader.Stopped?
    ensures Inv(FinishTeardown(s))
  {
    var s', open := FinishTeardown(s), OpenCalls(s.trace).value;
    forall j: nat | j < |s'.conns| ensures CallOk(s', open, j) {
      assert CallOk(s, open, j);
      TornDownCall(s, open, j);
    }
    forall k | k in s'.table || k in open ensures IdOk(s', open, k) {
      assert IdOk(s, open, k);
    }
    Conclude(s', open);
  }

  lemma TornDownCall(s: Session, open: map<bytes, Report>, j: nat)
    requires s.reader.Stopped? && j < |s.conns| && CallOk(s, open, j)
    ensures CallOk(FinishTeardown(s), open, j)
  {
    hide FinishTeardown;
    TornDownTo(s, j);
    var c, c' := s.conns[j], FinishTeardown(s).conns[j];
    assert InboxShape(c');
  }

  lemma TornDownAll(s: Session)
    ensures |FinishTeardown(s).conns| == |s.conns|
    ensures FinishTeardown(s) == s.(conns := FinishTeardown(s).conns, table := map[], registration := None)
  {
  }

  lemma TornDownTo(s: Session, j: nat)
    requires j < |s.conns|
    ensures |FinishTeardown(s).conns| == |s.conns|
    ensures FinishTeardown(s).conns[j] == if Holds(s, j) then Fail(s.conns[j]) else s.conns[j]
    ensures FinishTeardown(s) == s.(conns := FinishTeardown(s).conns, table := map[], registration := None)
  {
    hide Fail;
  }

  lemma ReaderKeeps(s: Session, reader: Reader)
    requires Inv(s) && !s.reader.AckingInvite? && (reader.Reading? || reader.Stopped?)
    requires s.reader.Stopped? ==> reader.Stopped?
    ensures Inv(s.(reader := reader))
  {
    Same(s, s.(reader := reader));
  }

  lemma InvInRange(s: Session)
    requires Inv(s)
    ensures InRange(s)
  {
    forall k | k in s.table ensures s.table[k] < |s.conns| {
      assert IdOk(s, OpenCalls(s.trace).value, k);
    }
  }

  lemma StepKeeps(s: Session, step: Step)
    requires Inv(s)
    ensures InRange(s) && Inv(Apply(s, step))
  {
    hide DispatchCtp, InviteAckEnds, AckEnds, WatcherTakes, FinishWatch, WatcherCancelled, ReleaseConnection,
         FinishTeardown;
    InvInRange(s);
    if Enabled(s, step) {
      match step
      case Receive(payload, ours, firstSeq) => DispatchKeeps(s, payload, ours, firstSeq);
      case ReaderResumes(o) =>
        if s.reader.AckingInvite? {
          InviteAckKeeps(s, o);
        } else if s.reader.Acking? {
          AckKeeps(s, o);
        } else {
          ReaderKeeps(s, if o.Cancelled? then Stopped else Reading);
        }
      case ReaderStops => ReaderKeeps(s, Stopped);
      case WatcherStarts(i) => Same(s, s.(watchers := s.watchers[i := Waiting]));
      case WatcherReceives(i) => WatcherTakesKeeps(s, i);
      case WatcherTimesOut(i) => FinishWatchKeeps(s, i, None);
      case WatcherFinSent(i) => FinishWatchKeeps(s, i, s.watchers[i].cause);
      case WatcherIsCancelled(i) => WatcherCancelledKeeps(s, i);
      case Open(local, ours, destination, callId, firstSeq, firstAck) =>
        PeerInvolution(local);
        NewConnectionKeeps(s, OutboundConn(local, ours, destination, callId, firstSeq, firstAck));
      case Take(i) => ConsumeKeeps(s, i);
      case Registered(i) => Same(s, Apply(s, step));
      case Release(i) => ReleaseKeeps(s, i);
      case TeardownEnds => TeardownKeeps(s);
    }
  }
}
