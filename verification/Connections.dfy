/** What becomes of a connection (viper/session.py): how it begins, who takes its id, and what it is released from. */
module Connections {
  import opened Bytes
  import opened Ctp
  import opened Calls
  import opened CallProperties
  import opened CallEnds
  import Unfiled

  // ---------------------------------------------------------------- how a connection begins

  /** A SYN with an INVITE, whose call id is not the one that is in force on its connection. */
  predicate NewCall(s: Session, p: CtpPacket)
    requires InRange(s)
  {
    && p.flags >= 0x80 && |p.body| >= 2 && p.body[0] == 0x00 && p.body[1] == 0x01
    && (p.connection in s.table ==>
          s.conns[s.table[p.connection]].callId != Some(if |p.body| >= 28 then p.body[24..28] else []))
  }

  /** The connection of a call that just came in: the panel's id for it and ours, the addresses turned round, and the
      panel's sequence number acknowledged. */
  predicate TakenIn(c: Conn, p: CtpPacket, ours: string, firstSeq: byte)
    requires |p.connection| == 2
  {
    var high: int := p.connection[0];
    && c.peerId == p.connection && c.localId == [(high + 0x80) % 0x100, p.connection[1]]
    && c.source == (if ours != "" then ours else p.destination) && c.destination == p.source
    && c.sequence == firstSeq && c.acknowledgement == (p.sequence + 1) % 0x100
    && c.inbox == [] && !c.failed && !c.persistent && !c.endReported && c.event.Some?
  }

  /** The report of the end of a call that holds this id, if one does. */
  function EndsHeld(s: Session, id: bytes): seq<Report>
    requires InRange(s)
  {
    if id in s.table && s.conns[s.table[id]].event.Some? then
      [End(s.table[id], s.conns[s.table[id]].event.value, None)]
    else []
  }

  /** A new connection has the packet's id, and rings. Whoever held that id has failed and is woken, behind what was
      queued; if it was a call, its end is reported before the ring; and if it was the registration, there is none any
      more. */
  predicate TakesOver(s: Session, r: Session, p: CtpPacket, ours: string, firstSeq: byte)
    requires InRange(s) && |p.connection| == 2
  {
    var n := |s.conns|;
    && |r.conns| == n + 1 && TakenIn(r.conns[n], p, ours, firstSeq)
    && r.table == s.table[p.connection := n] && r.reader == AckingInvite(n, p)
    && r.trace == s.trace + EndsHeld(s, p.connection) + [Ring(n, r.conns[n].event.value)]
    && if p.connection in s.table then
         var i := s.table[p.connection];
         && r.conns[i].failed && r.conns[i].inbox == s.conns[i].inbox + [None]
         && r.registration == if s.registration == Some(i) then None else s.registration
       else r.registration == s.registration
  }

  /** In every run, a new call takes its id over from whoever had it, if anybody did. */
  lemma NewCallTakesOver(steps: seq<Step>, payload: bytes, ours: string, firstSeq: byte, p: CtpPacket)
    requires ParseCtpPacket(payload) == Ok(p)
    requires Exec(steps).reader.Reading? && NewCall(Exec(steps), p)
    ensures TakesOver(Exec(steps), Exec(steps + [Receive(payload, ours, firstSeq)]), p, ours, firstSeq)
  {
    var s := Exec(steps);
    ExecAppend(steps, Receive(payload, ours, firstSeq));
    if p.connection in s.table {
      TableIsConsistent(steps, p.connection);
    }
    hide Exec, TakesOver, ParseCtpPacket, Apply, NewCall;
    ConnectionId(payload, p);
    ReceiveDispatches(s, payload, ours, firstSeq, p);
    CallTakesOver(s, p, ours, firstSeq);
  }

  lemma ReceiveDispatches(s: Session, payload: bytes, ours: string, firstSeq: byte, p: CtpPacket)
    requires InRange(s) && s.reader.Reading? && ParseCtpPacket(payload) == Ok(p) && |p.connection| == 2
    ensures Apply(s, Receive(payload, ours, firstSeq)) == DispatchPacket(s, p, ours, firstSeq)
  {
    hide ParseCtpPacket, DispatchPacket;
  }

  lemma ConnectionId(payload: bytes, p: CtpPacket)
    requires ParseCtpPacket(payload) == Ok(p)
    ensures |p.connection| == 2
  {
  }

  lemma Wires(p: CtpPacket)
    ensures p.IsSyn() <==> p.flags >= 0x80
    ensures p.Opcode() == Some(OP_INVITE) <==> |p.body| >= 2 && p.body[0] == 0x00 && p.body[1] == 0x01
    ensures InviteCallId(p.body) == if |p.body| >= 28 then p.body[24..28] else []
  {
    hide DecodeLogaddr;
  }

  lemma CallTakesOver(s: Session, p: CtpPacket, ours: string, firstSeq: byte)
    requires InRange(s) && |p.connection| == 2 && NewCall(s, p)
    requires p.connection in s.table ==> s.conns[s.table[p.connection]].peerId == p.connection
    ensures TakesOver(s, DispatchPacket(s, p, ours, firstSeq), p, ours, firstSeq)
  {
    hide RingEventOf, InviteCallId, PeerConnectionId;
    PeerBytes(p.connection);
    Wires(p);
    if p.connection in s.table {
      assert (s.table - {p.connection})[p.connection := |s.conns|] == s.table[p.connection := |s.conns|];
    }
  }

  /** A connection is added, and filed under an id that led nowhere. */
  predicate Adds(s: Session, r: Session, c: Conn) {
    && r.conns == s.conns + [c] && c.peerId !in s.table && r.table == s.table[c.peerId := |s.conns|]
  }

  /** A connection of ours begins with the id that was drawn for it, which is below 7FFF and not zero, and with what its
      owner asked for. */
  lemma OpensAsAsked(steps: seq<Step>, local: bytes, ours: string, destination: string, callId: Option<bytes>,
                     firstSeq: byte, firstAck: byte)
    requires FreeLocalId(Exec(steps), local)
    ensures 0 < local[0] as int * 0x100 + local[1] as int < 0x7FFF
    ensures var peer := [(local[0] as int + 0x80) % 0x100, local[1] as int];
            Adds(Exec(steps), Exec(steps + [Open(local, ours, destination, callId, firstSeq, firstAck)]),
                 Conn(local, peer, ours, destination, firstSeq, firstAck, [], false, callId, None, false, false))
  {
    ExecAppend(steps, Open(local, ours, destination, callId, firstSeq, firstAck));
    hide Exec;
    PeerBytes(local);
  }

  // ---------------------------------------------------------------- how it ends

  /** The id of a connection leads nowhere any more, and nothing else has changed in the table. */
  ghost predicate Freed(table: map<bytes, nat>, after: map<bytes, nat>, i: nat) {
    && (forall id :: id in after <==> id in table && table[id] != i)
    && (forall id :: id in after ==> after[id] == table[id])
  }

  lemma ReleaseFrees(s: Session, i: nat)
    requires Inv(s) && i < |s.conns|
    ensures Freed(s.table, ReleaseConnection(s, i).table, i) && !Holds(ReleaseConnection(s, i), i)
    ensures ReleaseConnection(s, i).conns == s.conns
  {
    forall id | id in s.table && s.table[id] == i ensures id == s.conns[i].peerId {
      assert IdOk(s, OpenCalls(s.trace).value, id);
    }
    hide Inv;
  }

  /** Whoever opened a connection and is done with it frees its id, nobody else's, and for good. */
  lemma ReleasedForGood(steps: seq<Step>, i: nat, more: seq<Step>)
    requires Outgoing(Exec(steps), i)
    ensures Freed(Exec(steps).table, Exec(steps + [Release(i)]).table, i)
    ensures var t := Exec(steps + [Release(i)] + more); forall id :: id in t.table ==> t.table[id] != i
  {
    ExecAppend(steps, Release(i));
    hide Exec, Inv, Freed, ReleaseConnection, Holds;
    ReleaseFrees(Exec(steps), i);
    Unfiled.UnfiledForGood(steps + [Release(i)], more, i);
    NeverLeadsThere(steps + [Release(i)] + more, i);
  }

  lemma NeverLeadsThere(steps: seq<Step>, i: nat)
    requires i < |Exec(steps).conns| && !Holds(Exec(steps), i)
    ensures forall id :: id in Exec(steps).table ==> Exec(steps).table[id] != i
  {
    forall id | id in Exec(steps).table ensures Exec(steps).table[id] != i {
      TableIsConsistent(steps, id);
    }
  }

  /** The watcher of a call has nothing more to wait for: it ran into its timeout, its FIN is out, or it was cancelled
      at either of its waits. */
  predicate WatchOver(s: Session, step: Step, i: nat) {
    || (step == WatcherTimesOut(i) && Enabled(s, step))
    || (step == WatcherFinSent(i) && Enabled(s, step))
    || (step == WatcherIsCancelled(i) && Watched(s, i) && (s.watchers[i].Waiting? || s.watchers[i].SendingFin?))
  }

  /** Then the call's id is freed, unless a successor has it, and its end is reported, unless a successor's INVITE did
      so before: with the cause the watcher heard, if it heard of the end. */
  lemma WatchOverReports(steps: seq<Step>, step: Step, i: nat)
    requires WatchOver(Exec(steps), step, i)
    ensures var s, r := Exec(steps), Exec(steps + [step]);
            && r.watchers == s.watchers[i := Finished] && r.conns == s.conns && Freed(s.table, r.table, i)
            && r.trace == s.trace + if s.conns[i].endReported then []
                                    else [End(i, s.conns[i].event.value,
                                              if s.watchers[i].SendingFin? then s.watchers[i].cause else None)]
  {
    var s := Exec(steps);
    ReleaseFrees(s, i);
    ExecAppend(steps, step);
    hide Exec, Inv, Freed, Apply, WatchOver;
    WatchFinishes(s, step, i);
  }

  lemma WatchFinishes(s: Session, step: Step, i: nat)
    requires InRange(s) && WatchOver(s, step, i)
    ensures Apply(s, step) == FinishWatch(s, i, if s.watchers[i].SendingFin? then s.watchers[i].cause else None)
  {
    hide FinishWatch;
  }

  // ---------------------------------------------------------------- the registration

  /** At step `n` the registration on connection `i` came through. */
  ghost predicate RegisteredAt(steps: seq<Step>, n: nat, i: nat) {
    n < |steps| && steps[n] == Registered(i) && Outgoing(Exec(steps[..n]), i)
  }

  /** Another registration came through, or a call took this connection's id, or a teardown was completed. */
  predicate Unregisters(s: Session, step: Step, i: nat) {
    || (step.Registered? && Outgoing(s, step.conn))
    || Displaced(s, step) == Some(i)
    || (step.TeardownEnds? && s.reader.Stopped?)
  }

  /** At step `n` the registration on connection `i` came through, and since then it has been the registration. */
  ghost predicate LastRegistered(steps: seq<Step>, n: nat, i: nat) {
    && RegisteredAt(steps, n, i)
    && forall m :: n < m < |steps| ==> !Unregisters(Exec(steps[..m]), steps[m], i)
  }

  lemma StepRegisters(s: Session, step: Step, i: nat)
    requires Inv(s) && InRange(s)
    ensures Apply(s, step).registration == Some(i)
            <==> (step == Registered(i) && Outgoing(s, i)) || (s.registration == Some(i) && !Unregisters(s, step, i))
  {
    hide Inv, RingEventOf, ParseCtpPacket, DispatchPacket, Displaces;
    if step.Receive? && s.reader.Reading? && ParseCtpPacket(step.payload).Ok? {
      PacketRegisters(s, ParseCtpPacket(step.payload).value, step);
    }
  }

  lemma PacketRegisters(s: Session, p: CtpPacket, step: Step)
    requires InRange(s) && step.Receive? && ParseCtpPacket(step.payload) == Ok(p) && s.reader.Reading?
    ensures |p.connection| == 2
    ensures DispatchPacket(s, p, step.ours, step.firstSeq).registration
            == if Displaced(s, step).Some? && s.registration == Displaced(s, step) then None else s.registration
  {
    ConnectionId(step.payload, p);
    hide RingEventOf, ParseCtpPacket, Displaces, InboundConn;
  }

  /** Over every run, the registration is the connection that was registered last, unless a call has taken its id or a
      teardown been completed since: then there is none. */
  lemma {:induction false} RegistrationMeans(steps: seq<Step>, i: nat)
    ensures Exec(steps).registration == Some(i) <==> exists n: nat :: LastRegistered(steps, n, i)
  {
    hide *;
    if steps == [] {
      NoneYet(i);
    } else {
      var front, last := steps[..|steps| - 1], steps[|steps| - 1];
      RegistrationMeans(front, i);
      Steps(front, last, i);
      LastOn(front, last, i);
      assert steps == front + [last];
    }
  }

  lemma NoneYet(i: nat)
    ensures Exec([]).registration == None && forall n: nat :: !LastRegistered([], n, i)
  {
  }

  lemma Steps(front: seq<Step>, last: Step, i: nat)
    ensures Exec(front + [last]).registration == Some(i)
            <==> || (last == Registered(i) && Outgoing(Exec(front), i))
                 || (Exec(front).registration == Some(i) && !Unregisters(Exec(front), last, i))
  {
    hide Unregisters, Apply, Inv, Outgoing;
    ExecAppend(front, last);
    StepRegisters(Exec(front), last, i);
  }

  lemma LastOn(front: seq<Step>, last: Step, i: nat)
    ensures (exists n: nat :: LastRegistered(front + [last], n, i))
            <==> || (last == Registered(i) && Outgoing(Exec(front), i))
                 || ((exists n: nat :: LastRegistered(front, n, i)) && !Unregisters(Exec(front), last, i))
  {
    hide Exec, Unregisters, Outgoing;
    var steps, k := front + [last], |front|;
    assert steps[..k] == front && steps[k] == last;
    assert forall n :: 0 <= n < k ==> steps[n] == front[n] && steps[..n] == front[..n];
    if last == Registered(i) && Outgoing(Exec(front), i) {
      assert LastRegistered(steps, k, i);
    }
    if !Unregisters(Exec(front), last, i) {
      if n: nat :| LastRegistered(front, n, i) {
        assert LastRegistered(steps, n, i);
      }
    }
    if n: nat :| LastRegistered(steps, n, i) && n < k {
      assert LastRegistered(front, n, i);
    }
  }
}
