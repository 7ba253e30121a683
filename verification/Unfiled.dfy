/** Connections that have left the table (viper/session.py): released, displaced, or failed by a teardown. */
module Unfiled {
  import opened Bytes
  import opened Ctp
  import opened Calls
  import opened CallProperties

  /** What becomes of a connection that its id does not lead to: it is never filed again, and neither fails nor
      recovers. */
  lemma UnfiledStep(s: Session, step: Step, i: nat)
    requires Inv(s) && InRange(s) && i < |s.conns| && !Holds(s, i)
    ensures var s' := Apply(s, step);
            i < |s'.conns| && !Holds(s', i) && s'.conns[i].failed == s.conns[i].failed
  {
    hide DispatchCtp, RingEventOf, Inv, InviteAckEnds, AckEnds, WatcherTakes;
    if Enabled(s, step) {
      match step {
        case Receive(payload, ours, firstSeq) => UnfiledReceive(s, payload, ours, firstSeq, i);
        case ReaderResumes(_) => UnfiledAck(s, step.outcome, i);
        case WatcherReceives(j) => UnfiledTakes(s, j, i);
        case WatcherIsCancelled(_) =>
        case TeardownEnds =>
        case _ =>
      }
    }
  }

  lemma UnfiledAck(s: Session, o: SendOutcome, i: nat)
    requires InRange(s) && i < |s.conns| && !Holds(s, i) && Enabled(s, ReaderResumes(o))
    ensures var s' := Apply(s, ReaderResumes(o));
            |s'.conns| == |s.conns| && !Holds(s', i) && s'.conns[i].failed == s.conns[i].failed
  {
    hide RingEventOf;
  }

  lemma UnfiledTakes(s: Session, j: nat, i: nat)
    requires i < |s.conns| && !Holds(s, i) && Watched(s, j) && s.conns[j].inbox != []
    ensures var s' := WatcherTakes(s, j);
            |s'.conns| == |s.conns| && !Holds(s', i) && s'.conns[i].failed == s.conns[i].failed
  {
  }

  lemma UnfiledReceive(s: Session, payload: bytes, ours: string, firstSeq: byte, i: nat)
    requires Inv(s) && InRange(s) && i < |s.conns| && !Holds(s, i)
    ensures var s' := DispatchCtp(s, payload, ours, firstSeq);
            i < |s'.conns| && !Holds(s', i) && s'.conns[i].failed == s.conns[i].failed
  {
    hide RingEventOf, Displaces, ParseCtpPacket, Inv, InboundConn, OpenCalls, HandleIncoming, Displace;
    match ParseCtpPacket(payload)
    case ValueError =>
    case Ok(p) =>
      if p.connection in s.table {
        PeerOf(s, p.connection);
        UnfiledHolder(s, s.table[p.connection], p, i);
      }
  }

  lemma PeerOf(s: Session, id: bytes)
    requires Inv(s) && id in s.table
    ensures s.table[id] < |s.conns| && s.conns[s.table[id]].peerId == id
  {
    assert IdOk(s, OpenCalls(s.trace).value, id);
  }

  lemma UnfiledHolder(s: Session, j: nat, p: CtpPacket, i: nat)
    requires i < |s.conns| && !Holds(s, i) && j < |s.conns| && Holds(s, j)
    ensures var s' := Displace(s, j);
            && |s'.conns| == |s.conns| && !Holds(s', i) && s'.conns[i].failed == s.conns[i].failed
            && (forall k :: k in s'.table ==> k in s.table && s'.table[k] == s.table[k])
            && s'.conns[i].peerId == s.conns[i].peerId
    ensures var s' := HandleIncoming(s, j, p);
            && |s'.conns| == |s.conns| && !Holds(s', i) && s'.conns[i].failed == s.conns[i].failed
  {
  }

  /** So once a connection is released or displaced, whether it has failed is settled for the rest of the run. */
  lemma {:induction false} UnfiledForGood(steps: seq<Step>, more: seq<Step>, i: nat)
    requires i < |Exec(steps).conns| && !Holds(Exec(steps), i)
    ensures i < |Exec(steps + more).conns| && !Holds(Exec(steps + more), i)
    ensures Exec(steps + more).conns[i].failed == Exec(steps).conns[i].failed
  {
    hide *;
    if more == [] {
      assert steps + [] == steps;
    } else {
      var front := steps + more[..|more| - 1];
      assert steps + more == front + [more[|more| - 1]];
      UnfiledForGood(steps, more[..|more| - 1], i);
      ExecAppend(front, more[|more| - 1]);
      UnfiledStep(Exec(front), more[|more| - 1], i);
    }
  }

  /** Nothing is queued on a failed connection any more: waits take what is there, up to the sentinel. */
  ghost predicate OnlyDrained(c: Conn, c': Conn) {
    && c'.failed
    && |c'.inbox| <= |c.inbox| && c'.inbox == c.inbox[|c.inbox| - |c'.inbox|..]
  }

  lemma FailedStep(s: Session, step: Step, i: nat)
    requires Inv(s) && InRange(s) && i < |s.conns| && s.conns[i].failed
    ensures i < |Apply(s, step).conns| && OnlyDrained(s.conns[i], Apply(s, step).conns[i])
  {
    assert CallOk(s, OpenCalls(s.trace).value, i);
    UnfiledStep(s, step, i);
    if Enabled(s, step) {
      match step {
        case Receive(payload, ours, firstSeq) => FailedReceive(s, payload, ours, firstSeq, i);
        case WatcherReceives(j) =>
          assert CallOk(s, OpenCalls(s.trace).value, j);
          TakesDrains(s, j, i);
        case Take(j) => NextOnly(s.conns[i]);
        case _ => SameInbox(s, step, i);
      }
    }
  }

  lemma NextOnly(c: Conn)
    requires c.failed && InboxShape(c)
    ensures c.inbox != [] && OnlyDrained(c, c) && OnlyDrained(c, c.(inbox := c.inbox[1..]))
  {
  }

  lemma TakesDrains(s: Session, j: nat, i: nat)
    requires i < |s.conns| && Watched(s, j) && s.conns[j].inbox != [] && InboxShape(s.conns[j])
    requires s.conns[i].failed && InboxShape(s.conns[i])
    ensures |WatcherTakes(s, j).conns| == |s.conns| && OnlyDrained(s.conns[i], WatcherTakes(s, j).conns[i])
  {
    NextOnly(s.conns[i]);
    hide InboxShape, OnlyDrained;
    var c := s.conns[j];
    assert c.inbox[0].None? ==> c.inbox[1..] + [None] == c.inbox by {
      assert InboxShape(c);
      AloneIfFirst(c);
    }
  }

  lemma AloneIfFirst(c: Conn)
    requires InboxShape(c) && c.inbox != []
    ensures c.inbox[0].None? ==> c.inbox == [None]
  {
  }

  lemma SameInbox(s: Session, step: Step, i: nat)
    requires Inv(s) && InRange(s) && i < |s.conns| && s.conns[i].failed && !Holds(s, i) && Enabled(s, step)
    requires !step.Receive? && !step.WatcherReceives? && !step.Take?
    ensures i < |Apply(s, step).conns| && Apply(s, step).conns[i].inbox == s.conns[i].inbox
    ensures Apply(s, step).conns[i].failed
  {
    hide RingEventOf, InboxShape;
    match step {
      case ReaderResumes(_) => assert s.reader.AckingInvite? ==> Holds(s, s.reader.call);
      case _ =>
    }
  }

  lemma FailedReceive(s: Session, payload: bytes, ours: string, firstSeq: byte, i: nat)
    requires Inv(s) && InRange(s) && i < |s.conns| && s.conns[i].failed && !Holds(s, i)
    ensures var s' := DispatchCtp(s, payload, ours, firstSeq);
            i < |s'.conns| && s'.conns[i].inbox == s.conns[i].inbox && s'.conns[i].failed
  {
    hide RingEventOf, Displaces, ParseCtpPacket;
    match ParseCtpPacket(payload)
    case ValueError =>
    case Ok(p) =>
      if p.connection in s.table {
        assert IdOk(s, OpenCalls(s.trace).value, p.connection);
      }
  }

  lemma {:induction false} FailedOnlyDrains(steps: seq<Step>, more: seq<Step>, i: nat)
    requires i < |Exec(steps).conns| && Exec(steps).conns[i].failed
    ensures i < |Exec(steps + more).conns| && OnlyDrained(Exec(steps).conns[i], Exec(steps + more).conns[i])
  {
    hide *;
    if more == [] {
      assert steps + [] == steps;
      DrainedAlready(Exec(steps).conns[i]);
    } else {
      var front := steps + more[..|more| - 1];
      assert steps + more == front + [more[|more| - 1]];
      FailedOnlyDrains(steps, more[..|more| - 1], i);
      ExecAppend(front, more[|more| - 1]);
      FailedThen(Exec(steps).conns[i], Exec(front).conns[i]);
      FailedStep(Exec(front), more[|more| - 1], i);
      DrainedTwice(Exec(steps).conns[i], Exec(front).conns[i], Exec(steps + more).conns[i]);
    }
  }

  lemma DrainedAlready(c: Conn)
    requires c.failed
    ensures OnlyDrained(c, c)
  {
  }

  lemma FailedThen(c: Conn, c': Conn)
    requires OnlyDrained(c, c')
    ensures c'.failed
  {
  }

  lemma DrainedTwice(a: Conn, b: Conn, c: Conn)
    requires OnlyDrained(a, b) && OnlyDrained(b, c)
    ensures OnlyDrained(a, c)
  {
    assert b.inbox[|b.inbox| - |c.inbox|..] == a.inbox[|a.inbox| - |c.inbox|..];
  }
}
