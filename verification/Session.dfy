/** The session's objects (viper/session.py): connections, the table of them, channels, and the teardown.

    A method is the code between two awaits. What a suspended task holds in local variables comes back as arguments;
    how the await went is an argument too. The table's behaviour is that of the step machine in Calls. */
module Session {
  import opened Bytes
  import opened Ctp
  import opened Calls
  import Frames

  // ---------------------------------------------------------------- waiting on an inbox

  datatype WaitResult =
    | Got(packet: CtpPacket)
    | RefusedBy(cause: Option<byte>)
    | LinkDown
    | TimedOut
    | Suspended

  /** One `wait`, with `turns` rounds of its loop before the deadline: the result and what is left in the inbox. */
  function WaitFor(inbox: seq<Entry>, opcode: Option<u16>, turns: nat): (WaitResult, seq<Entry>)
    decreases turns
  {
    if turns == 0 then (TimedOut, inbox)
    else if inbox == [] then (Suspended, inbox)
    else match inbox[0]
      case None => (LinkDown, inbox[1..] + [None])
      case Some(p) =>
        if opcode.None? || p.Opcode() == opcode then (Got(p), inbox[1..])
        else if p.Opcode() == Some(OP_RELEASE) then (RefusedBy(p.ReleaseCause()), inbox[1..])
        else WaitFor(inbox[1..], opcode, turns - 1)
  }

  /** What ends a wait: the sentinel, a packet with the opcode, or a RELEASE. */
  predicate Settles(entry: Entry, opcode: Option<u16>) {
    || entry.None? || opcode.None? || entry.value.Opcode() == opcode
    || (|entry.value.body| >= 2 && entry.value.body[0] == 0x00 && entry.value.body[1] == 0x0E)
  }

  /** Where the first such entry is. */
  function FirstSettling(inbox: seq<Entry>, opcode: Option<u16>): (k: nat)
    ensures k <= |inbox| && (k < |inbox| ==> Settles(inbox[k], opcode))
    ensures forall j :: 0 <= j < k ==> !Settles(inbox[j], opcode)
  {
    if inbox == [] || Settles(inbox[0], opcode) then 0 else FirstSettling(inbox[1..], opcode) + 1
  }

  /** One wait goes through the inbox up to the first entry that settles it, which it takes with what lay before: a
      packet it asked for it gets, another RELEASE refuses it with its cause, and the sentinel is put back. Without such
      an entry it is suspended, unless its time runs out first. */
  lemma {:induction false} WaitSettles(inbox: seq<Entry>, opcode: Option<u16>, turns: nat)
    ensures var (result, rest) := WaitFor(inbox, opcode, turns);
            var k := FirstSettling(inbox, opcode);
            if turns <= k then result == TimedOut && rest == inbox[turns..]
            else if k == |inbox| then result == Suspended && rest == []
            else match inbox[k]
              case None => result == LinkDown && rest == inbox[k + 1..] + [None]
              case Some(p) =>
                && rest == inbox[k + 1..]
                && result == if opcode.None? || p.Opcode() == opcode then Got(p)
                             else RefusedBy(if |p.body| >= 3 then Some(p.body[2]) else None)
    decreases turns
  {
    var k := FirstSettling(inbox, opcode);
    if turns > 0 && k > 0 {
      WaitSettles(inbox[1..], opcode, turns - 1);
      assert turns <= |inbox| ==> inbox[1..][turns - 1..] == inbox[turns..];
      assert k < |inbox| ==> inbox[1..][k - 1] == inbox[k] && inbox[1..][k..] == inbox[k + 1..];
    }
  }

  function Packets(ps: seq<CtpPacket>): seq<Entry> {
    seq(|ps|, i requires 0 <= i < |ps| => Some(ps[i]))
  }

  /** The inbox after `n` waits for any packet. */
  function AfterWaits(inbox: seq<Entry>, n: nat): seq<Entry> {
    if n == 0 then inbox else WaitFor(AfterWaits(inbox, n - 1), None, 1).1
  }

  /** On a failed connection every wait comes back at once: first the packets already queued, in order, then, for good,
      the failure. */
  lemma {:induction false} FailedInboxDrains(ps: seq<CtpPacket>, n: nat)
    ensures var inbox := Packets(ps) + [None];
            && AfterWaits(inbox, n) == Packets(ps[if n < |ps| then n else |ps|..]) + [None]
            && WaitFor(AfterWaits(inbox, n), None, 1).0 == if n < |ps| then Got(ps[n]) else LinkDown
  {
    if n > 0 {
      FailedInboxDrains(ps, n - 1);
      if n <= |ps| {
        assert ps[n - 1..][1..] == ps[n..];
        assert (Packets(ps[n - 1..]) + [None])[1..] == Packets(ps[n..]) + [None];
      } else {
        assert Packets([]) + [None] == [None];
      }
    }
    var left := ps[if n < |ps| then n else |ps|..];
    assert Packets(left) + [None] != [];
  }

  /** Nor does a wait for one opcode ever hang on a failed connection, and it leaves the failure for the next. */
  lemma {:induction false} FailedNeverHangs(inbox: seq<Entry>, opcode: Option<u16>, turns: nat)
    requires inbox != [] && inbox[|inbox| - 1].None? && forall j :: 0 <= j < |inbox| - 1 ==> inbox[j].Some?
    ensures var (result, rest) := WaitFor(inbox, opcode, turns);
            && result != Suspended
            && rest != [] && rest[|rest| - 1].None? && (forall j :: 0 <= j < |rest| - 1 ==> rest[j].Some?)
            && (result.TimedOut? ==> turns < |inbox|)
    decreases turns
  {
    if turns > 0 && inbox[0].Some? {
      FailedNeverHangs(inbox[1..], opcode, turns - 1);
    }
  }

  // ---------------------------------------------------------------- connections

  datatype Sending = Write(packet: bytes) | NoLink | BadPacket

  class CtpConnection {
    ghost const number: nat  // how many connections were made before this one
    const localId: bytes
    const peerId: bytes
    const source: string
    const destination: string
    var sequence: byte
    var acknowledgement: byte
    var inbox: seq<Entry>
    var persistent: bool
    var callId: Option<bytes>
    var event: Option<RingEvent>
    var failed: bool
    var endReported: bool

    function View(): Conn
      reads this
    {
      Conn(localId, peerId, source, destination, sequence, acknowledgement, inbox, persistent, callId, event,
           failed, endReported)
    }

    constructor (ghost number: nat, localId: bytes, peerId: bytes, source: string, destination: string,
                 sequence: byte, acknowledgement: byte)
      ensures this.number == number
      ensures View() == Conn(localId, peerId, source, destination, sequence, acknowledgement, [], false, None, None,
                             false, false)
    {
      this.number := number;
      this.localId, this.peerId, this.source, this.destination := localId, peerId, source, destination;
      this.sequence, this.acknowledgement := sequence, acknowledgement;
      inbox, persistent, callId, event, failed, endReported := [], false, None, None, false, false;
    }

    /** What `send` writes: nothing at all once the connection has failed. */
    method Send(body: bytes, flags: byte) returns (r: Sending)
      ensures r.NoLink? <==> failed
      ensures r.BadPacket? <==>
                !failed && !(|localId| == 2 && |body| <= 0xFFFF && Address(source) && Address(destination))
      ensures r.Write? ==>
                ParseCtpPacket(r.packet)
                == Ok(CtpPacket(flags, localId, sequence, acknowledgement, body, source, destination))
    {
      if failed {
        return NoLink;
      }
      ParseUndoesBuild(CtpPacket(flags, localId, sequence, acknowledgement, body, source, destination));
      var packet := BuildCtpPacket(flags, localId, sequence, acknowledgement, body, source, destination);
      r := match packet case Ok(wire) => Write(wire) case ValueError => BadPacket;
    }

    /** The write of a packet with this body is done. */
    method SendDone(body: bytes)
      modifies this`sequence
      ensures sequence == if body == [] then old(sequence) else (old(sequence) + 1) % 0x100
    {
      if body != [] {
        sequence := (sequence + 1) % 0x100;
      }
    }

    method Acknowledge(packet: CtpPacket)
      modifies this`acknowledgement
      ensures View() == Calls.Acknowledge(old(View()), packet)
    {
      acknowledgement := (packet.sequence + 1) % 0x100;
    }

    method Put(packet: CtpPacket)
      modifies this`inbox
      ensures View() == old(View()).(inbox := old(inbox) + [Some(packet)])
    {
      inbox := inbox + [Some(packet)];
    }

    method Fail()
      modifies this`failed, this`inbox
      ensures View() == Calls.Fail(old(View()))
    {
      failed := true;
      inbox := inbox + [None];
    }

    /** As much of `wait` as can run before it has to suspend. */
    method Wait(opcode: Option<u16>, turns: nat) returns (r: WaitResult)
      modifies this`inbox
      ensures (r, inbox) == WaitFor(old(inbox), opcode, turns)
      ensures View() == old(View()).(inbox := inbox)
    {
      var left := turns;
      while true
        invariant 0 <= left <= turns
        invariant WaitFor(inbox, opcode, left) == WaitFor(old(inbox), opcode, turns)
        decreases left
      {
        if left == 0 {
          return TimedOut;
        }
        if inbox == [] {
          return Suspended;
        }
        var entry := inbox[0];
        inbox := inbox[1..];
        match entry
        case None =>
          inbox := inbox + [None];
          return LinkDown;
        case Some(p) =>
          if opcode.None? || p.Opcode() == opcode {
            return Got(p);
          }
          if p.Opcode() == Some(OP_RELEASE) {
            return RefusedBy(p.ReleaseCause());
          }
        left := left - 1;
      }
    }
  }

  // ---------------------------------------------------------------- channels

  /** Whether the n-th candidate handle cannot be handed out. */
  predicate Taken(open: set<u16>, n: nat) {
    n % 0x1_0000 == 0 || n % 0x1_0000 in open
  }

  predicate SomeFree(open: set<u16>) {
    exists h: u16 :: h != 0 && h !in open
  }

  /** The search for a handle ends just when a handle is free. */
  lemma SearchEndsWhenFree(open: set<u16>, from: nat)
    ensures SomeFree(open) <==> exists n: nat :: from <= n && !Taken(open, n)
  {
    if SomeFree(open) {
      var h: u16 :| h != 0 && h !in open;
      var n := NextTurn(from, h);
      assert !Taken(open, n);
    }
    if n: nat :| from <= n && !Taken(open, n) {
      var h: u16 := n % 0x1_0000;
      assert h != 0 && h !in open;
    }
  }

  /** The first candidate from `from` on that is handle `h`. */
  function NextTurn(from: nat, h: u16): (n: nat)
    ensures from <= n < from + 0x1_0000 && n % 0x1_0000 == h
  {
    var n := from + (h - from as int) % 0x1_0000;
    TurnMod(from, h);
    n
  }

  lemma TurnMod(from: nat, h: u16)
    ensures (from + (h - from as int) % 0x1_0000) % 0x1_0000 == h
  {
  }

  // ---------------------------------------------------------------- the wire

  /** What the session hands to the transport, on the CTPP channel or on the management channel. */
  datatype OnWire = Ctp(packet: bytes) | Mgmt(payload: bytes)

  /** The frame that closes a channel, byte for byte. */
  function ClosesChannel(handle: u16): OnWire {
    Mgmt([0xEF, 0x01, 0x03, 0x00, 0x02, 0x00, 0x00, 0x00, handle % 0x100, handle / 0x100])
  }

  /** What is written for a packet: bytes that parse to it; or nothing, if its connection has failed or it does not fit.
      */
  predicate Wrote(before: seq<OnWire>, after: seq<OnWire>, failed: bool, p: CtpPacket) {
    if failed || !Encodable(p) then after == before
    else
      && |after| == |before| + 1 && after[..|before|] == before && after[|before|].Ctp?
      && ParseCtpPacket(after[|before|].packet) == Ok(p)
  }

  /** asyncio.Future, as far as its waiter can tell. */
  class Future {
    var done: bool

    constructor ()
      ensures !done
    {
      done := false;
    }

    method Complete()
      modifies this
      ensures done
    {
      done := true;
    }
  }

  /** How the FIN of a registration came back: written, refused with a ViperError, or raising anything else. */
  datatype FinOutcome = FinWritten | FinRefused | FinRaised

  datatype OpenOutcome = Acknowledged | OpenTimedOut | OpenLostLink | OpenCancelled

  // ---------------------------------------------------------------- the session

  class ViperSession {
    var connections: map<bytes, CtpConnection>
    var registration: CtpConnection?
    var renewals: nat
    var source: string
    var handles: nat
    var msgIds: nat
    var openHandles: set<u16>
    var openWaiters: map<u16, Future>
    var jsonWaiters: map<(u16, nat), Future>
    var binaryHandlers: set<u16>  // the handles whose raw frames go to the video call
    var channelHandler: bool      // whether it hears of the channels the panel opens
    var registeredAt: Option<real>
    var tearingDown: bool

    ghost var objects: seq<CtpConnection>  // every connection made, in order
    ghost var reader: Reader               // where the reader task is suspended
    ghost var watchers: map<nat, Watcher>  // and the watcher tasks
    ghost var trace: seq<Report>           // what the callbacks were told
    ghost var lost: set<nat>
    ghost var wire: seq<OnWire>            // what was written, packets and channel management

    ghost predicate Knows(c: CtpConnection)
      reads this`objects
    {
      c.number < |objects| && objects[c.number] == c
    }

    ghost predicate Valid()
      reads this`objects, this`connections, this`registration
    {
      && (forall i :: 0 <= i < |objects| ==> objects[i].number == i && |objects[i].peerId| == 2)
      && (forall k :: k in connections ==> Knows(connections[k]) && connections[k].peerId == k)
      && (registration != null ==> Knows(registration))
    }

    ghost function Views(): (vs: seq<Conn>)
      reads this`objects, objects
      ensures |vs| == |objects|
      ensures forall i :: 0 <= i < |objects| ==> vs[i] == objects[i].View()
    {
      var os := objects;
      seq(|os|, i requires 0 <= i < |os| reads os => os[i].View())
    }

    ghost function Table(): (t: map<bytes, nat>)
      reads this`connections
      ensures t.Keys == connections.Keys
      ensures forall k :: k in connections ==> t[k] == connections[k].number
    {
      map k | k in connections :: connections[k].number
    }

    ghost function View(): Calls.Session
      reads this`objects, this`connections, this`registration, this`reader, this`watchers, this`renewals, this`trace,
            this`lost, objects
    {
      Calls.Session(Views(), Table(),
                    if registration == null then None else Some(registration.number),
                    reader, watchers, renewals, trace, lost)
    }

    /** Valid, and in a state that the theorems about the connection table speak of. */
    ghost predicate Sound()
      reads this`objects, this`connections, this`registration, this`reader, this`watchers, this`renewals, this`trace,
            this`lost, objects
    {
      Valid() && Inv(View())
    }

    /** Whether `c` is the connection its id leads to. */
    ghost predicate Filed(c: CtpConnection)
      reads this`connections
    {
      c.peerId in connections && connections[c.peerId] == c
    }

    /** Of such an object, a connection that has failed is filed nowhere; and an inbound call whose end has not been
        reported is filed, or the reader has stopped, as long as somebody follows it. */
    lemma FiledMeansAlive(c: CtpConnection)
      requires Sound() && Knows(c)
      ensures Filed(c) ==> !c.failed && c.localId == PeerConnectionId(c.peerId)
      ensures BeingWatched(View(), c.number) && !c.endReported ==> Filed(c) || reader.Stopped?
    {
      var s := View();
      assert s.conns[c.number] == c.View();
      assert CallOk(s, OpenCalls(s.trace).value, c.number);
      assert Filed(c) <==> Holds(s, c.number);
    }

    /** All that changed of the connections is `c`. */
    twostate lemma OnlyThisChanged(c: CtpConnection)
      requires old(Valid()) && objects == old(objects) && old(Knows(c))
      requires forall o :: o in objects && o != c ==> unchanged(o)
      ensures Views() == old(Views())[c.number := c.View()]
    {
      forall i | 0 <= i < |objects| && i != c.number ensures objects[i].View() == old(objects[i].View()) {
        assert objects[i] in objects && objects[i].number == i;
      }
    }

    twostate lemma OneAdded(new c: CtpConnection)
      requires objects == old(objects) + [c]
      requires forall o :: o in old(objects) ==> unchanged(o)
      ensures Views() == old(Views()) + [c.View()]
    {
      forall i | 0 <= i < |old(objects)| ensures objects[i].View() == old(objects[i].View()) {
        assert objects[i] in old(objects);
      }
    }

    constructor (source: string)
      ensures Valid() && View() == Start && objects == []
      ensures openHandles == {} && openWaiters == map[] && jsonWaiters == map[] && registeredAt == None && !tearingDown
      ensures binaryHandlers == {} && !channelHandler && wire == []
    {
      connections, registration, renewals, this.source := map[], null, 0, source;
      handles, msgIds, openHandles, openWaiters, jsonWaiters := 0x7474, 1, {}, map[], map[];
      binaryHandlers, channelHandler, registeredAt, tearingDown := {}, false, None, false;
      objects, reader, watchers, trace, lost, wire := [], Reading, map[], [], {}, [];
    }

    /** A packet on this connection is handed to the transport. */
    method Transmit(conn: CtpConnection, body: bytes, flags: byte) returns (r: Sending)
      modifies this`wire
      ensures Wrote(old(wire), wire, conn.failed, CtpPacket(flags, conn.localId, conn.sequence, conn.acknowledgement,
                                                            body, conn.source, conn.destination))
      ensures r.NoLink? <==> conn.failed
      ensures r.BadPacket? <==>
                !conn.failed && !(|conn.localId| == 2 && |body| <= 0xFFFF && Address(conn.source)
                                  && Address(conn.destination))
      ensures wire == old(wire) + if r.Write? then [Ctp(r.packet)] else []
    {
      hide ParseCtpPacket, Address;
      r := conn.Send(body, flags);
      if r.Write? {
        wire := wire + [Ctp(r.packet)];
      }
    }

    // -------------------------------------------------------------- inbound packets

    /** self._connections.pop(id, None) */
    method Forget(id: bytes)
      requires Valid()
      modifies this`connections
      ensures Valid() && View() == old(View()).(table := old(Table()) - {id}) && connections == old(connections) - {id}
    {
      Unpoint(id);
      hide Table;
    }

    method Unpoint(id: bytes)
      modifies this`connections
      ensures connections == old(connections) - {id} && Table() == old(Table()) - {id}
    {
      connections := connections - {id};
    }

    method Displace(conn: CtpConnection)
      requires Valid() && Knows(conn)
      modifies this`connections, this`registration, this`trace, conn
      ensures Valid() && View() == Calls.Displace(old(View()), conn.number)
    {
      hide Calls.Unfiled, Calls.Silenced;
      Unfile(conn);
      Silence(conn);
    }

    method Unfile(conn: CtpConnection)
      requires Valid() && Knows(conn)
      modifies this`connections, this`registration
      ensures Valid() && View() == Unfiled(old(View()), conn.number)
    {
      Forget(conn.peerId);
      assert registration != null && registration.number == conn.number ==> registration == conn;
      if conn == registration {
        registration := null;
      }
    }

    method Silence(conn: CtpConnection)
      requires Valid() && Knows(conn)
      modifies this`trace, conn
      ensures Valid() && View() == Silenced(old(View()), conn.number)
    {
      conn.Fail();
      if conn.event.Some? {
        trace := trace + [End(conn.number, conn.event.value, None)];
        conn.endReported := true;
      }
      OnlyThisChanged(conn);
    }

    method HandleIncoming(conn: CtpConnection, packet: CtpPacket)
      requires Valid() && Knows(conn)
      modifies this`reader, this`wire, conn`acknowledgement, conn`inbox
      ensures Valid() && View() == Calls.HandleIncoming(old(View()), conn.number, packet)
      ensures conn.inbox == old(conn.inbox) + if packet.body == [] then [Some(packet)] else []
      ensures if packet.body == [] then wire == old(wire)
              else Wrote(old(wire), wire, conn.failed, CtpPacket(0x00, conn.localId, conn.sequence,
                                                                 (packet.sequence + 1) % 0x100, [], conn.source,
                                                                 conn.destination))
    {
      hide Wrote;
      if packet.body != [] {
        conn.Acknowledge(packet);
        var _ := Transmit(conn, [], FLAG_ACK);
        if conn.failed {
          OnlyThisChanged(conn);
          return;
        }
        reader := Acking(conn.number, packet);
      } else {
        conn.Put(packet);
      }
      OnlyThisChanged(conn);
    }

    /** A new connection enters the table under its peer's id. */
    method File(conn: CtpConnection)
      requires Valid() && conn.number == |objects| && conn !in objects && |conn.peerId| == 2
      modifies this`connections, this`objects
      ensures Valid() && objects == old(objects) + [conn]
      ensures View() == Calls.NewConnection(old(View()), conn.View())
    {
      Enter(conn);
    }

    method Enter(conn: CtpConnection)
      requires Valid() && conn.number == |objects| && conn !in objects && |conn.peerId| == 2
      modifies this`connections, this`objects
      ensures Valid() && objects == old(objects) + [conn] && Table() == old(Table())[conn.peerId := conn.number]
      ensures Views() == old(Views()) + [conn.View()]
    {
      Point(conn);
      objects := objects + [conn];
      OneAdded(conn);
    }

    method Point(conn: CtpConnection)
      modifies this`connections
      ensures connections == old(connections)[conn.peerId := conn]
      ensures Table() == old(Table())[conn.peerId := conn.number]
    {
      connections := connections[conn.peerId := conn];
    }

    method AcceptInvite(packet: CtpPacket, firstSeq: byte)
      requires Valid() && |packet.connection| == 2 && packet.Opcode() == Some(OP_INVITE)
      modifies this`connections, this`objects, this`trace, this`reader, this`wire
      ensures Valid() && |objects| == |old(objects)| + 1 && objects[..|old(objects)|] == old(objects)
      ensures fresh(objects[|old(objects)|])
      ensures View() == Calls.AcceptInbound(old(View()), packet, source, firstSeq)
      ensures Wrote(old(wire), wire, false, AckOf(packet, source, firstSeq))
    {
      hide RingEventOf, PeerConnectionId, InboundConn, Calls.AcceptInbound, Wrote, AckOf, Views, Table, View;
      var event := RingEventOf(packet);
      var conn := NewInbound(packet, event, firstSeq);
      FileAndRing(conn, packet, event, firstSeq);
      AckInbound(conn, packet, firstSeq);
    }

    method FileAndRing(conn: CtpConnection, packet: CtpPacket, event: RingEvent, firstSeq: byte)
      requires Valid() && |packet.connection| == 2 && packet.Opcode() == Some(OP_INVITE)
      requires event == RingEventOf(packet) && conn.number == |objects| && conn !in objects
      requires conn.peerId == packet.connection && conn.View() == InboundConn(packet, source, firstSeq)
      modifies this`connections, this`objects, this`trace, this`reader
      ensures Valid() && objects == old(objects) + [conn]
      ensures View() == Calls.AcceptInbound(old(View()), packet, source, firstSeq)
    {
      hide RingEventOf, PeerConnectionId, InboundConn, Calls.NewConnection;
      trace := trace + [Ring(conn.number, event)];
      reader := AckingInvite(conn.number, packet);
      assert View() == old(View()).(trace := trace, reader := reader);
      File(conn);
    }

    /** The acknowledgement of a packet that opens a connection goes back to where it came from, under our id. */
    static function AckOf(packet: CtpPacket, source: string, firstSeq: byte): CtpPacket
      requires |packet.connection| == 2
    {
      CtpPacket(0x00, PeerConnectionId(packet.connection), firstSeq, (packet.sequence + 1) % 0x100, [],
                if source != "" then source else packet.destination, packet.source)
    }

    method AckInbound(conn: CtpConnection, packet: CtpPacket, firstSeq: byte)
      requires |packet.connection| == 2 && conn.View() == InboundConn(packet, source, firstSeq)
      modifies this`wire
      ensures Wrote(old(wire), wire, false, AckOf(packet, source, firstSeq)) && View() == old(View())
    {
      hide Wrote, RingEventOf, PeerConnectionId;
      var _ := Transmit(conn, [], FLAG_ACK);
    }

    method NewInbound(packet: CtpPacket, event: RingEvent, firstSeq: byte) returns (conn: CtpConnection)
      requires |packet.connection| == 2 && event == RingEventOf(packet)
      ensures fresh(conn) && conn.number == |objects| && conn.peerId == packet.connection
      ensures conn.View() == InboundConn(packet, source, firstSeq)
    {
      conn := new CtpConnection(|objects|, PeerConnectionId(packet.connection), packet.connection,
                                if source != "" then source else packet.destination, packet.source, firstSeq, 0);
      conn.callId := Some(event.callId);
      conn.event := Some(event);
      conn.Acknowledge(packet);
    }

    method AcceptInbound(packet: CtpPacket, firstSeq: byte)
      requires Valid() && |packet.connection| == 2
      modifies this`connections, this`objects, this`trace, this`reader, this`wire
      ensures Valid() && old(objects) <= objects
      ensures forall i :: |old(objects)| <= i < |objects| ==> fresh(objects[i])
      ensures View() == Calls.AcceptInbound(old(View()), packet, source, firstSeq)
      ensures if packet.body == [] then wire == old(wire)
              else Wrote(old(wire), wire, false, AckOf(packet, source, firstSeq))
    {
      hide Wrote, AckOf, InboundConn;
      if packet.Opcode() == Some(OP_INVITE) {
        AcceptInvite(packet, firstSeq);
      } else if packet.body != [] {
        var stray := NewInbound(packet, RingEventOf(packet), firstSeq);
        AckInbound(stray, packet, firstSeq);
        reader := AckingStray;
      }
    }

    method DispatchPacket(packet: CtpPacket, firstSeq: byte)
      requires Valid() && |packet.connection| == 2
      modifies this`connections, this`objects, this`registration, this`trace, this`reader, this`wire, objects
      ensures Valid() && old(objects) <= objects
      ensures forall i :: |old(objects)| <= i < |objects| ==> fresh(objects[i])
      ensures InRangeTable(old(View())) && View() == Calls.DispatchPacket(old(View()), packet, source, firstSeq)
    {
      hide Calls.Displace, Calls.AcceptInbound, Calls.HandleIncoming, Calls.Displaces;
      if packet.connection in connections {
        var conn := connections[packet.connection];
        assert conn in objects;
        if !Calls.Displaces(packet, conn.View()) {
          HandleIncoming(conn, packet);
          return;
        }
        Displace(conn);
        AcceptInbound(packet, firstSeq);
      } else if packet.IsSyn() {
        AcceptInbound(packet, firstSeq);
      }
    }

    method DispatchCtp(payload: bytes, firstSeq: byte)
      requires Valid()
      modifies this`connections, this`objects, this`registration, this`trace, this`reader, this`wire, objects
      ensures Valid() && old(objects) <= objects
      ensures forall i :: |old(objects)| <= i < |objects| ==> fresh(objects[i])
      ensures InRangeTable(old(View())) && View() == Calls.DispatchCtp(old(View()), payload, source, firstSeq)
    {
      match ParseCtpPacket(payload)
      case Ok(packet) => DispatchPacket(packet, firstSeq);
      case ValueError =>
    }

    /** The rest of `_dispatch_ctp` for a packet of a known connection, once its acknowledgement is sent or not. */
    method AckDone(conn: CtpConnection, packet: CtpPacket, outcome: SendOutcome)
      requires Valid() && Knows(conn) && reader == Acking(conn.number, packet)
      modifies this`renewals, this`reader, this`wire, conn`inbox
      ensures Valid() && View() == AckEnds(old(View()), conn.number, packet, outcome)
      ensures conn.inbox == old(conn.inbox) + if outcome.Sent? then [Some(packet)] else []
      ensures if outcome.Sent? && Renews(conn, packet) then Wrote(old(wire), wire, conn.failed, FinOf(conn))
              else wire == old(wire)
    {
      if !outcome.Sent? {
        reader := if outcome.Cancelled? then Stopped else Reading;
        return;
      }
      Deliver(conn, packet);
      hide Calls.Put, Calls.AnswerRenewal, Wrote;
      AnswerRenewal(conn, packet);
    }

    /** A repeated answer to a registration. */
    predicate Renews(conn: CtpConnection, packet: CtpPacket)
      reads conn`persistent
    {
      && conn.persistent && packet.flags / 0x80 % 2 == 0
      && |packet.body| >= 2 && packet.body[0] == 0x00 && packet.body[1] == 0x41
    }

    /** A FIN on this connection. */
    static function FinOf(conn: CtpConnection): CtpPacket
      reads conn`sequence, conn`acknowledgement
    {
      CtpPacket(0x20, conn.localId, conn.sequence, conn.acknowledgement, [], conn.source, conn.destination)
    }

    method AnswerRenewal(conn: CtpConnection, packet: CtpPacket)
      requires Valid() && Knows(conn)
      modifies this`renewals, this`reader, this`wire
      ensures Valid() && View() == Calls.AnswerRenewal(old(View()), conn.number, packet)
      ensures if Renews(conn, packet) then Wrote(old(wire), wire, conn.failed, FinOf(conn)) else wire == old(wire)
    {
      hide Wrote;
      if conn.persistent && packet.Opcode() == Some(OP_REGISTER_RESPONSE) && !packet.IsSyn() {
        renewals := renewals + 1;
        var _ := Transmit(conn, [], FLAG_FIN);
        reader := if conn.failed then Reading else AnsweringRenewal;
      } else {
        reader := Reading;
      }
    }

    method Deliver(conn: CtpConnection, packet: CtpPacket)
      requires Valid() && Knows(conn)
      modifies conn`inbox
      ensures Valid() && View() == Calls.Put(old(View()), conn.number, packet)
      ensures conn.inbox == old(conn.inbox) + [Some(packet)]
    {
      conn.Put(packet);
      OnlyThisChanged(conn);
    }

    /** The rest of `_accept_inbound` for an INVITE, once its acknowledgement is sent or not. */
    method InviteAckDone(conn: CtpConnection, packet: CtpPacket, outcome: SendOutcome)
      requires Valid() && Knows(conn) && reader == AckingInvite(conn.number, packet)
      modifies this`connections, this`reader, this`watchers, this`trace, this`lost, conn
      ensures Valid() && View() == InviteAckEnds(old(View()), conn.number, packet, outcome)
      ensures conn.inbox == old(conn.inbox) + if outcome.Sent? then [Some(packet)] else []
    {
      hide Calls.Put, RingEventOf;
      match outcome {
        case Sent => Follow(conn, packet);
        case Refused => GiveBack(conn, packet);
        case _ =>
          lost := lost + {conn.number};
          reader := if outcome.Cancelled? then Stopped else Reading;
      }
    }

    /** The call is acknowledged: from now on a watcher follows it. */
    method Follow(conn: CtpConnection, packet: CtpPacket)
      requires Valid() && Knows(conn)
      modifies this`reader, this`watchers, conn
      ensures Valid() && View() == InviteAckEnds(old(View()), conn.number, packet, Sent)
      ensures conn.inbox == old(conn.inbox) + [Some(packet)]
    {
      hide Calls.Put, RingEventOf;
      Deliver(conn, packet);
      watchers := watchers[conn.number := NotStarted];
      reader := Reading;
    }

    /** It could not be acknowledged: its end is reported at once. */
    method GiveBack(conn: CtpConnection, packet: CtpPacket)
      requires Valid() && Knows(conn)
      modifies this`connections, this`reader, this`trace
      ensures Valid() && View() == InviteAckEnds(old(View()), conn.number, packet, Refused)
    {
      hide RingEventOf;
      Forget(packet.connection);
      trace := trace + [End(conn.number, RingEventOf(packet), None)];
      reader := Reading;
    }

    /** The table without this connection: a successor on its id stays. */
    static function Without(table: map<bytes, CtpConnection>, conn: CtpConnection): map<bytes, CtpConnection> {
      if conn.peerId in table && table[conn.peerId] == conn then table - {conn.peerId} else table
    }

    method ReleaseConnection(conn: CtpConnection)
      requires Valid() && Knows(conn)
      modifies this`connections
      ensures Valid() && View() == Calls.ReleaseConnection(old(View()), conn.number)
      ensures connections == Without(old(connections), conn)
    {
      if conn.peerId in connections && connections[conn.peerId] == conn {
        Forget(conn.peerId);
      }
    }

    /** The `finally` of `_watch_inbound_call`. */
    method FinishWatch(conn: CtpConnection, cause: Option<byte>)
      requires Valid() && Knows(conn) && conn.event.Some?
      modifies this`connections, this`watchers, this`trace
      ensures Valid() && View() == Calls.FinishWatch(old(View()), conn.number, cause)
    {
      hide Calls.ReleaseConnection;
      ReleaseConnection(conn);
      ReportEnd(conn, cause);
    }

    method ReportEnd(conn: CtpConnection, cause: Option<byte>)
      requires Valid() && Knows(conn) && conn.event.Some?
      modifies this`watchers, this`trace
      ensures Valid()
      ensures View() == old(View()).(watchers := old(watchers)[conn.number := Finished],
                                     trace := if conn.endReported then old(trace)
                                              else old(trace) + [End(conn.number, conn.event.value, cause)])
    {
      watchers := watchers[conn.number := Finished];
      if !conn.endReported {
        trace := trace + [End(conn.number, conn.event.value, cause)];
      }
    }

    /** One round of the loop in `_watch_inbound_call`, with an entry in the inbox. */
    method WatcherReceives(conn: CtpConnection)
      requires Valid() && Knows(conn) && conn.event.Some? && conn.inbox != []
      modifies this`connections, this`watchers, this`trace, this`wire, conn`inbox
      ensures Valid() && View() == WatcherTakes(old(View()), conn.number)
      ensures if old(conn.inbox[0].Some? && Ends(conn.inbox[0].value)) then
                Wrote(old(wire), wire, conn.failed, FinOf(conn))
              else wire == old(wire)
    {
      hide Wrote, Calls.FinishWatch, FinOf;
      var got := conn.Wait(None, 1);
      OnlyThisChanged(conn);
      match got {
        case Got(packet) =>
          if packet.Opcode() == Some(OP_RELEASE) || packet.IsFin() {
            CallOver(conn, packet.ReleaseCause());
          }
        case LinkDown => FinishWatch(conn, None);
      }
    }

    /** The loop has ended: a FIN goes out, and unless that is impossible the watch goes on with it. */
    method CallOver(conn: CtpConnection, cause: Option<byte>)
      requires Valid() && Knows(conn) && conn.event.Some?
      modifies this`connections, this`watchers, this`trace, this`wire
      ensures Valid() && Wrote(old(wire), wire, conn.failed, FinOf(conn))
      ensures View() == if conn.failed then Calls.FinishWatch(old(View()), conn.number, cause)
                        else old(View()).(watchers := old(watchers)[conn.number := SendingFin(cause)])
    {
      hide Wrote, Calls.FinishWatch;
      var _ := Transmit(conn, [], FLAG_FIN);
      if conn.failed {
        FinishWatch(conn, cause);
      } else {
        watchers := watchers[conn.number := SendingFin(cause)];
      }
    }

    /** A RELEASE or a FIN. */
    static predicate Ends(packet: CtpPacket) {
      (|packet.body| >= 2 && packet.body[0] == 0x00 && packet.body[1] == 0x0E) || packet.flags / 0x20 % 2 == 1
    }

    /** `_new_connection`, with the id the random draw settled on. */
    method NewConnection(local: bytes, destination: string, firstSeq: byte, firstAck: byte)
        returns (conn: CtpConnection)
      requires Valid() && FreeLocalId(View(), local)
      modifies this`connections, this`objects
      ensures Valid() && fresh(conn) && objects == old(objects) + [conn]
      ensures View() == Calls.NewConnection(old(View()),
                                            OutboundConn(local, source, destination, None, firstSeq, firstAck))
      ensures conn.localId == local && conn.source == source && conn.destination == destination
      ensures conn.sequence == firstSeq && conn.acknowledgement == firstAck && conn.callId == None
    {
      conn := new CtpConnection(|objects|, local, PeerConnectionId(local), source, destination, firstSeq, firstAck);
      hide Calls.NewConnection, PeerConnectionId, Views, Table, View;
      File(conn);
    }

    /** `_register` once the panel has answered, up to its FIN, and what that FIN writes. */
    method Registered(conn: CtpConnection) returns (fin: Sending)
      requires Valid() && Knows(conn)
      modifies this`registration, this`wire, conn`persistent
      ensures Valid()
      ensures View() == old(View()).(registration := Some(conn.number),
                                     conns := old(Views())[conn.number := old(conn.View()).(persistent := true)])
      ensures Wrote(old(wire), wire, conn.failed, FinOf(conn)) && (fin.NoLink? <==> conn.failed)
    {
      hide Wrote, Address;
      conn.persistent := true;
      registration := conn;
      OnlyThisChanged(conn);
      fin := Transmit(conn, [], FLAG_FIN);
    }

    /** And from its FIN on. A ViperError from that is ignored; anything else leaves the one before filed, and the time
        as it was. */
    method RegistrationDone(conn: CtpConnection, previous: CtpConnection?, fin: FinOutcome, now: real)
      requires Valid() && (previous != null ==> Knows(previous))
      modifies this`connections, this`registeredAt
      ensures Valid()
      ensures registeredAt == if fin.FinRaised? then old(registeredAt) else Some(now)
      ensures var releases := !fin.FinRaised? && previous != null && previous != conn;
              && connections == (if releases then Without(old(connections), previous) else old(connections))
              && View() == if releases then Calls.ReleaseConnection(old(View()), previous.number) else old(View())
    {
      hide Calls.ReleaseConnection;
      if !fin.FinRaised? {
        if previous != null && previous != conn {
          ReleaseConnection(previous);
        }
        registeredAt := Some(now);
      }
    }

    /** `_register` when its request or its wait raised; a cancellation leaves the connection filed. */
    method RegistrationFailed(conn: CtpConnection, cancelled: bool)
      requires Valid() && Knows(conn)
      modifies this`connections, this`registeredAt
      ensures Valid() && registeredAt == if cancelled then old(registeredAt) else None
      ensures connections == if cancelled then old(connections) else Without(old(connections), conn)
      ensures View() == if cancelled then old(View()) else Calls.ReleaseConnection(old(View()), conn.number)
    {
      hide Calls.ReleaseConnection;
      if !cancelled {
        ReleaseConnection(conn);
        registeredAt := None;
      }
    }

    // -------------------------------------------------------------- teardown

    /** Up to the first await: nothing, if another teardown is running. */
    method BeginTeardown() returns (go: bool)
      modifies this`tearingDown
      ensures tearingDown && go == !old(tearingDown)
    {
      go := !tearingDown;
      tearingDown := true;
    }

    /** A cancellation while the tasks or the socket are awaited: the next teardown starts afresh. */
    method CutTeardownShort()
      modifies this`tearingDown
      ensures !tearingDown
    {
      tearingDown := false;
    }

    method FailConnections()
      requires Valid()
      modifies objects
      ensures Views() == Calls.FinishTeardown(old(View())).conns
    {
      var ids := connections.Keys;
      while ids != {}
        invariant ids <= connections.Keys
        invariant forall c :: c in objects && Filed(c) && c.peerId !in ids ==> c.View() == Calls.Fail(old(c.View()))
        invariant forall c :: c in objects && (!Filed(c) || c.peerId in ids) ==> unchanged(c)
      {
        var id :| id in ids;
        var conn := connections[id];
        assert conn in objects && Filed(conn) && conn.peerId == id;
        conn.Fail();
        ids := ids - {id};
      }
      assert forall c :: c in objects && Filed(c) ==> c.View() == Calls.Fail(old(c.View()));
      FailedViews();
    }

    method FailWaiters()
      modifies this`openWaiters, this`jsonWaiters, openWaiters.Values, jsonWaiters.Values
      ensures View() == old(View()) && openWaiters == map[] && jsonWaiters == map[]
      ensures forall f :: f in old(openWaiters.Values) || f in old(jsonWaiters.Values) ==> f.done
    {
      var futures := openWaiters.Values + jsonWaiters.Values;
      var left := futures;
      while left != {}
        invariant left <= futures && View() == old(View())
        invariant forall f :: f in futures && f !in left ==> f.done
      {
        var future :| future in left;
        if !future.done {
          future.Complete();
        }
        left := left - {future};
      }
      openWaiters, jsonWaiters := map[], map[];
    }

    method ForgetChannels()
      modifies this`openHandles, this`binaryHandlers, this`channelHandler, this`registeredAt, this`tearingDown
      ensures View() == old(View()) && openHandles == {} && binaryHandlers == {} && !channelHandler
      ensures registeredAt == None && !tearingDown
    {
      openHandles, binaryHandlers, channelHandler, registeredAt, tearingDown := {}, {}, false, None, false;
    }

    /** From the last await to the end: whatever state the teardown comes back to, everyone waiting is woken. */
    method FinishTeardown()
      requires Valid() && tearingDown
      modifies this`connections, this`registration, this`registeredAt, this`tearingDown, objects
      modifies this`openHandles, this`binaryHandlers, this`channelHandler
      modifies this`openWaiters, this`jsonWaiters, openWaiters.Values, jsonWaiters.Values
      ensures Valid() && View() == Calls.FinishTeardown(old(View())) && connections == map[]
      ensures openWaiters == map[] && jsonWaiters == map[] && openHandles == {} && registeredAt == None && !tearingDown
      ensures binaryHandlers == {} && !channelHandler
      ensures forall f :: f in old(openWaiters.Values) || f in old(jsonWaiters.Values) ==> f.done
    {
      hide Calls.FinishTeardown, View, Views, Table;
      FailTable();
      FailWaiters();
      ForgetChannels();
    }

    method FailTable()
      requires Valid()
      modifies this`connections, this`registration, objects
      ensures Valid() && View() == Calls.FinishTeardown(old(View())) && connections == map[]
    {
      FailConnections();
      ClearTable();
    }

    method ClearTable()
      requires Valid()
      modifies this`connections, this`registration
      ensures Valid() && connections == map[]
      ensures View() == old(View()).(table := map[], registration := None)
    {
      connections := map[];
      registration := null;
      assert Table() == map[];
    }

    twostate lemma FailedViews()
      requires Valid() && old(Valid()) && objects == old(objects) && connections == old(connections)
      requires forall c :: c in objects && Filed(c) ==> c.View() == Calls.Fail(old(c.View()))
      requires forall c :: c in objects && !Filed(c) ==> unchanged(c)
      ensures Views() == Calls.FinishTeardown(old(View())).conns
    {
      var s := old(View());
      forall i | 0 <= i < |objects| ensures Views()[i] == Calls.FinishTeardown(s).conns[i] {
        var c := objects[i];
        assert c in objects && c.number == i;
        assert Filed(c) <==> Holder(s, s.conns[i].peerId) == Some(i);
      }
    }

    // -------------------------------------------------------------- resumptions

    /** The reader takes a packet: a step of the table's machine, after which the object is still sound. */
    method Receives(payload: bytes, firstSeq: byte)
      requires Sound() && reader.Reading?
      modifies this`connections, this`objects, this`registration, this`trace, this`reader, this`wire, objects
      ensures Sound() && InRange(old(View())) && View() == Apply(old(View()), Receive(payload, source, firstSeq))
    {
      hide Inv, InRange, InRangeTable, Apply, Calls.DispatchCtp, Views, Table;
      ReceiveIs(View(), payload, source, firstSeq);
      DispatchKeeps(View(), payload, source, firstSeq);
      DispatchCtp(payload, firstSeq);
    }

    /** Its acknowledgement comes back: likewise. */
    method ReaderResumes(conn: CtpConnection, packet: CtpPacket, invite: bool, outcome: SendOutcome)
      requires Sound() && Knows(conn)
      requires reader == if invite then AckingInvite(conn.number, packet) else Acking(conn.number, packet)
      modifies this`connections, this`reader, this`watchers, this`trace, this`lost, this`renewals, this`wire, conn
      ensures Sound() && InRange(old(View())) && View() == Apply(old(View()), Calls.ReaderResumes(outcome))
    {
      hide Inv, InviteAckEnds, AckEnds;
      StepKeeps(View(), Calls.ReaderResumes(outcome));
      if invite {
        InviteAckDone(conn, packet, outcome);
      } else {
        AckDone(conn, packet, outcome);
      }
    }

    /** A watcher gets an entry: likewise. */
    method WatcherGets(conn: CtpConnection)
      requires Sound() && Knows(conn) && Enabled(View(), Calls.WatcherReceives(conn.number))
      modifies this`connections, this`watchers, this`trace, this`wire, conn
      ensures Sound() && InRange(old(View())) && View() == Apply(old(View()), Calls.WatcherReceives(conn.number))
    {
      hide Inv, WatcherTakes;
      StepKeeps(View(), Calls.WatcherReceives(conn.number));
      assert View().conns[conn.number] == conn.View();
      WatcherReceives(conn);
    }

    /** A watcher ends, by its timeout, with its FIN, or cancelled at either wait: likewise. */
    method WatcherEnds(conn: CtpConnection, cause: Option<byte>)
      requires Sound() && Knows(conn) && Watched(View(), conn.number)
      requires watchers[conn.number] == SendingFin(cause) || (watchers[conn.number] == Waiting && cause.None?)
      modifies this`connections, this`watchers, this`trace
      ensures Sound() && InRange(old(View()))
      ensures View() == Apply(old(View()), WatcherIsCancelled(conn.number))
    {
      hide Inv, InRange, Calls.FinishWatch;
      assert View().conns[conn.number] == conn.View();
      WatchEndIs(View(), conn.number, cause);
      FinishWatchKeeps(View(), conn.number, cause);
      hide Apply;
      FinishWatch(conn, cause);
    }

    /** The owner of an outgoing connection is done with it: likewise. */
    method Releases(conn: CtpConnection)
      requires Sound() && Knows(conn) && conn.event.None?
      modifies this`connections
      ensures Sound() && InRange(old(View())) && View() == Apply(old(View()), Release(conn.number))
    {
      hide Inv, InRange, Calls.ReleaseConnection;
      assert View().conns[conn.number] == conn.View();
      ReleaseIs(View(), conn.number);
      ReleaseKeeps(View(), conn.number);
      hide Apply;
      ReleaseConnection(conn);
    }

    /** A teardown comes to its end: likewise. */
    method TearsDown()
      requires Sound() && tearingDown && reader.Stopped?
      modifies this`connections, this`registration, this`registeredAt, this`tearingDown, objects
      modifies this`openHandles, this`binaryHandlers, this`channelHandler
      modifies this`openWaiters, this`jsonWaiters, openWaiters.Values, jsonWaiters.Values
      ensures Sound() && InRange(old(View())) && View() == Apply(old(View()), TeardownEnds)
    {
      TeardownIs(View());
      TeardownKeeps(View());
      hide Inv, InRange, Apply, Calls.FinishTeardown;
      FinishTeardown();
    }

    // -------------------------------------------------------------- channels

    /** The first handle in cyclic order that is neither zero nor in use; with none free the search would not end. */
    method NextHandle() returns (handle: u16)
      requires SomeFree(openHandles)
      modifies this`handles, this`openHandles
      ensures old(handles) < handles <= old(handles) + 0x1_0000
      ensures handle == (handles - 1) % 0x1_0000 && !Taken(old(openHandles), handles - 1)
      ensures forall n :: old(handles) <= n < handles - 1 ==> Taken(old(openHandles), n)
      ensures openHandles == old(openHandles) + {handle}
    {
      ghost var free: u16 :| free != 0 && free !in openHandles;
      ghost var first := NextTurn(handles, free);
      while true
        invariant old(handles) <= handles <= first && openHandles == old(openHandles)
        invariant forall n :: old(handles) <= n < handles ==> Taken(openHandles, n)
        decreases first - handles
      {
        handle := handles % 0x1_0000;
        handles := handles + 1;
        if handle != 0 && handle !in openHandles {
          openHandles := openHandles + {handle};
          return;
        }
      }
    }

    /** Keys of the waiter maps are never handed out a second time while in use. */
    ghost predicate WaitersOk()
      reads this
    {
      && openWaiters.Keys <= openHandles
      && (forall key :: key in jsonWaiters ==> key.1 < msgIds)
    }

    /** `open_channel` up to its await. */
    method BeginOpen() returns (handle: u16, future: Future)
      requires SomeFree(openHandles) && WaitersOk()
      modifies this`handles, this`openHandles, this`openWaiters
      ensures WaitersOk() && fresh(future) && !future.done
      ensures handle != 0 && handle !in old(openHandles) && handle !in old(openWaiters)
      ensures openHandles == old(openHandles) + {handle} && openWaiters == old(openWaiters)[handle := future]
    {
      handle := NextHandle();
      future := new Future();
      openWaiters := openWaiters[handle := future];
    }

    /** `open_channel` from its await on. A cancellation is not caught, and leaves the handle taken. */
    method FinishOpen(handle: u16, outcome: OpenOutcome)
      requires WaitersOk()
      modifies this`openHandles, this`openWaiters
      ensures WaitersOk()
      ensures outcome.OpenTimedOut? || outcome.OpenLostLink? ==>
                openHandles == old(openHandles) - {handle} && openWaiters == old(openWaiters) - {handle}
      ensures outcome.Acknowledged? || outcome.OpenCancelled? ==>
                openHandles == old(openHandles) && openWaiters == old(openWaiters)
    {
      if outcome.OpenTimedOut? || outcome.OpenLostLink? {
        openWaiters := openWaiters - {handle};
        openHandles := openHandles - {handle};
      }
    }

    /** The whole of `open_channel` when nothing else happens meanwhile. A failed one leaves no trace but the counter;
        a cancelled one leaves its handle and its waiter behind. */
    method OpenChannel(outcome: OpenOutcome) returns (handle: u16)
      requires SomeFree(openHandles) && WaitersOk() && !outcome.Acknowledged?
      modifies this`handles, this`openHandles, this`openWaiters
      ensures (openHandles == old(openHandles) && openWaiters == old(openWaiters)) <==> !outcome.OpenCancelled?
    {
      var future;
      handle, future := BeginOpen();
      FinishOpen(handle, outcome);
      if !outcome.OpenCancelled? {
        assert openWaiters == old(openWaiters);
        assert openHandles == old(openHandles);
      }
    }

    /** An acknowledgement from the panel: the waiter is woken and forgotten. */
    method OpenAcked(handle: u16)
      requires WaitersOk()
      modifies this`openWaiters, openWaiters.Values
      ensures WaitersOk() && openWaiters == old(openWaiters) - {handle}
      ensures handle in old(openWaiters) ==> old(openWaiters)[handle].done
      ensures forall f :: f in old(openWaiters.Values) && (handle in old(openWaiters) ==> f != old(openWaiters)[handle])
                          ==> unchanged(f)
    {
      if handle in openWaiters {
        var future := openWaiters[handle];
        openWaiters := openWaiters - {handle};
        if !future.done {
          future.Complete();
        }
      }
    }

    /** `close_channel` up to its await. */
    method BeginCloseChannel(handle: u16)
      modifies this`openHandles, this`binaryHandlers, this`wire
      ensures openHandles == old(openHandles) - {handle} && binaryHandlers == old(binaryHandlers) - {handle}
      ensures wire == old(wire) + [ClosesChannel(handle)]
    {
      binaryHandlers := binaryHandlers - {handle};
      openHandles := openHandles - {handle};
      wire := wire + [Mgmt(Frames.EncodeCloseChannel(handle))];
      Frames.CloseBytes(handle);
    }

    method SetBinaryHandler(handle: u16, ours: bool)
      modifies this`binaryHandlers
      ensures binaryHandlers == if ours then old(binaryHandlers) + {handle} else old(binaryHandlers) - {handle}
    {
      binaryHandlers := if ours then binaryHandlers + {handle} else binaryHandlers - {handle};
    }

    /** A handle the panel uses: for a channel it opens itself, or without opening it. */
    method ReserveHandle(handle: u16)
      modifies this`openHandles
      ensures openHandles == old(openHandles) + {handle} && (old(WaitersOk()) ==> WaitersOk())
    {
      openHandles := openHandles + {handle};
    }

    /** `request` up to its await; every message has an id of its own. */
    method BeginRequest(handle: u16) returns (mid: nat, future: Future)
      requires WaitersOk()
      modifies this`msgIds, this`jsonWaiters
      ensures WaitersOk() && fresh(future) && !future.done
      ensures (handle, mid) !in old(jsonWaiters) && jsonWaiters == old(jsonWaiters)[(handle, mid) := future]
    {
      mid := msgIds;
      msgIds := msgIds + 1;
      future := new Future();
      jsonWaiters := jsonWaiters[(handle, mid) := future];
    }

    /** A response, or the timeout, for a request. */
    method EndRequest(handle: u16, mid: nat, answered: bool)
      requires WaitersOk()
      modifies this`jsonWaiters, jsonWaiters.Values
      ensures WaitersOk() && jsonWaiters == old(jsonWaiters) - {(handle, mid)}
      ensures answered && (handle, mid) in old(jsonWaiters) ==> old(jsonWaiters)[(handle, mid)].done
    {
      if (handle, mid) in jsonWaiters {
        var future := jsonWaiters[(handle, mid)];
        jsonWaiters := jsonWaiters - {(handle, mid)};
        if answered && !future.done {
          future.Complete();
        }
      }
    }
  }

  lemma ReceiveIs(s: Calls.Session, payload: bytes, ours: string, firstSeq: byte)
    requires Inv(s) && s.reader.Reading?
    ensures InRange(s) && InRangeTable(s)
    ensures Apply(s, Receive(payload, ours, firstSeq)) == Calls.DispatchCtp(s, payload, ours, firstSeq)
  {
    hide Inv, Ringing;
    InvInRange(s);
  }

  lemma WatchEndIs(s: Calls.Session, i: nat, cause: Option<byte>)
    requires Inv(s) && Watched(s, i)
    requires s.watchers[i] == SendingFin(cause) || (s.watchers[i] == Waiting && cause.None?)
    ensures InRange(s) && Apply(s, WatcherIsCancelled(i)) == Calls.FinishWatch(s, i, cause)
  {
    hide Inv, Calls.FinishWatch;
    InvInRange(s);
  }

  lemma ReleaseIs(s: Calls.Session, i: nat)
    requires Inv(s) && Outgoing(s, i)
    ensures InRange(s) && Apply(s, Release(i)) == Calls.ReleaseConnection(s, i)
  {
    hide Inv, Ringing;
    InvInRange(s);
  }

  lemma TeardownIs(s: Calls.Session)
    requires Inv(s) && s.reader.Stopped?
    ensures InRange(s) && Apply(s, TeardownEnds) == Calls.FinishTeardown(s)
  {
    hide Inv, Ringing, Calls.FinishTeardown;
    InvInRange(s);
  }

  predicate InRangeTable(s: Calls.Session) {
    forall k :: k in s.table ==> s.table[k] < |s.conns|
  }
}
