/** What every interleaving of the reader, the watchers and the connection owners keeps (viper/session.py). */
module CallProperties {
  import opened Bytes
  import opened Ctp
  import opened Calls

  /** The session after a schedule. */
  ghost function Exec(steps: seq<Step>): (s: Session)
    ensures Inv(s)
  {
    if steps == [] then Start
    else
      var before := Exec(steps[..|steps| - 1]);
      StepKeeps(before, steps[|steps| - 1]);
      Apply(before, steps[|steps| - 1])
  }

  // ---------------------------------------------------------------- pairing, id by id

  function Project(trace: seq<Report>, id: bytes): seq<Report> {
    if trace == [] then []
    else
      var front := Project(trace[..|trace| - 1], id);
      if trace[|trace| - 1].event.connection == id then front + [trace[|trace| - 1]] else front
  }

  /** (ring end)* with at most one ring open at the end, and every end that of the ring before it. */
  predicate Alternates(t: seq<Report>) {
    forall j :: 0 <= j < |t| ==> InTurn(t, j)
  }

  predicate InTurn(t: seq<Report>, j: nat)
    requires j < |t|
  {
    if j % 2 == 0 then t[j].Ring? else t[j].End? && t[j - 1] == Ring(t[j].call, t[j].event)
  }

  lemma {:induction false} OpenCallsAlternate(trace: seq<Report>, id: bytes)
    requires OpenCalls(trace).Some?
    ensures var t, open := Project(trace, id), OpenCalls(trace).value;
            && Alternates(t)
            && (id in open <==> |t| % 2 == 1)
            && (id in open ==> open[id] == t[|t| - 1])
  {
    if trace != [] {
      OpenCallsAlternate(trace[..|trace| - 1], id);
      var front, last := Project(trace[..|trace| - 1], id), trace[|trace| - 1];
      if last.event.connection == id {
        AlternatesOn(front, last);
      }
    }
  }

  lemma AlternatesOn(t: seq<Report>, last: Report)
    requires Alternates(t)
    requires if |t| % 2 == 0 then last.Ring? else last.End? && t[|t| - 1] == Ring(last.call, last.event)
    ensures Alternates(t + [last])
  {
    var t' := t + [last];
    forall j | 0 <= j < |t'|
      ensures InTurn(t', j)
    {
      if j < |t| {
        assert InTurn(t, j);
      }
    }
  }

  /** For every interleaving and every connection id, the reports alternate. */
  lemma ReportsAlternate(steps: seq<Step>, id: bytes)
    ensures Alternates(Project(Exec(steps).trace, id))
  {
    OpenCallsAlternate(Exec(steps).trace, id);
  }

  // ---------------------------------------------------------------- no end twice

  /** What one step reports: at most the end of a call known before, and then the ring of a new one. */
  ghost predicate Reports(s: Session, s': Session) {
    && |s.conns| <= |s'.conns| && s.trace <= s'.trace
    && forall j :: |s.trace| <= j < |s'.trace| ==>
         if s'.trace[j].Ring? then j == |s'.trace| - 1 && s'.trace[j].call == |s.conns| < |s'.conns|
         else s'.trace[j].call < |s.conns|
  }

  lemma ReceiveReports(s: Session, payload: bytes, ours: string, firstSeq: byte)
    requires InRange(s)
    ensures Reports(s, DispatchCtp(s, payload, ours, firstSeq))
  {
    match ParseCtpPacket(payload)
    case ValueError =>
    case Ok(p) =>
      var held := Holder(s, p.connection);
      if held.Some? && Displaces(p, s.conns[held.value]) {
        var s1 := Displace(s, held.value);
        assert Reports(s, s1) && |s1.conns| == |s.conns|;
        assert Reports(s1, AcceptInbound(s1, p, ours, firstSeq));
      }
  }

  lemma StepReports(s: Session, step: Step)
    requires InRange(s)
    ensures Reports(s, Apply(s, step))
  {
    hide DispatchCtp, FinishTeardown, RingEventOf;
    match step
    case Receive(payload, ours, firstSeq) => ReceiveReports(s, payload, ours, firstSeq);
    case TeardownEnds => TornDownAll(s);
    case _ =>
  }

  /** Rings come with numbers no earlier report had. */
  predicate RingsFresh(trace: seq<Report>) {
    forall i, j :: 0 <= i < j < |trace| && trace[j].Ring? ==> trace[i].call < trace[j].call
  }

  lemma {:induction false} RingsAreFresh(steps: seq<Step>)
    ensures RingsFresh(Exec(steps).trace)
  {
    if steps != [] {
      var before := Exec(steps[..|steps| - 1]);
      RingsAreFresh(steps[..|steps| - 1]);
      InvInRange(before);
      StepReports(before, steps[|steps| - 1]);
    }
  }

  lemma {:induction false} ClosedForGood(trace: seq<Report>, e: nat)
    requires OpenCalls(trace).Some? && RingsFresh(trace) && e < |trace| && trace[e].End?
    ensures forall id :: id in OpenCalls(trace).value ==> OpenCalls(trace).value[id].call != trace[e].call
    ensures forall j :: e < j < |trace| && trace[j].End? ==> trace[j].call != trace[e].call
  {
    var n := |trace| - 1;
    var front := trace[..n];
    assert OpenCalls(front).Some?;
    if e == n {
      OneOpenPerCall(front);
    } else {
      ClosedForGood(front, e);
      assert front[e] == trace[e];
      if trace[n].End? {
        assert OpenCalls(front).value[trace[n].event.connection].call == trace[n].call;
      }
    }
  }

  /** An open call is filed under the id it rang on. */
  lemma {:induction false} OneOpenPerCall(trace: seq<Report>)
    requires OpenCalls(trace).Some? && RingsFresh(trace)
    ensures var open := OpenCalls(trace).value;
            && (forall id :: id in open ==> open[id].event.connection == id && open[id] in trace)
            && (forall id, id' :: id in open && id' in open && open[id].call == open[id'].call ==> id == id')
  {
    if trace != [] {
      var n := |trace| - 1;
      OneOpenPerCall(trace[..n]);
      var before, open := OpenCalls(trace[..n]).value, OpenCalls(trace).value;
      forall id | id in open ensures open[id] in trace {
        if id in before && before[id] == open[id] {
          assert open[id] in trace[..n];
        }
      }
    }
  }

  /** Unconditionally, no call's end is reported twice. */
  lemma EndsOnce(steps: seq<Step>, i: nat, j: nat)
    requires i < j < |Exec(steps).trace| && Exec(steps).trace[i].End? && Exec(steps).trace[j].End?
    ensures Exec(steps).trace[i].call != Exec(steps).trace[j].call
  {
    RingsAreFresh(steps);
    ClosedForGood(Exec(steps).trace, i);
  }

  // ---------------------------------------------------------------- every ring ends

  function Rings(trace: seq<Report>): nat {
    if trace == [] then 0 else Rings(trace[..|trace| - 1]) + if trace[|trace| - 1].Ring? then 1 else 0
  }

  function Ends(trace: seq<Report>): nat {
    if trace == [] then 0 else Ends(trace[..|trace| - 1]) + if trace[|trace| - 1].End? then 1 else 0
  }

  lemma {:induction false} RingsMinusEnds(trace: seq<Report>)
    requires OpenCalls(trace).Some?
    ensures Rings(trace) == Ends(trace) + |OpenCalls(trace).value|
  {
    if trace != [] {
      var last := trace[|trace| - 1];
      var before, open := OpenCalls(trace[..|trace| - 1]).value, OpenCalls(trace).value;
      RingsMinusEnds(trace[..|trace| - 1]);
      if last.Ring? {
        assert open.Keys == before.Keys + {last.event.connection};
      } else {
        assert before.Keys == open.Keys + {last.event.connection};
      }
    }
  }

  /** The two places where nothing is left to report an end: an exception the reader's acknowledgement does not catch,
      cancellation above all, and a watcher cancelled before its first step. */
  predicate Escapes(s: Session, step: Step) {
    && Enabled(s, step)
    && match step
       case ReaderResumes(o) => s.reader.AckingInvite? && (o.Uncaught? || o.Cancelled?)
       case WatcherIsCancelled(i) => s.watchers[i].NotStarted? && !s.conns[i].endReported
       case _ => false
  }

  lemma OnlyEscapesLose(s: Session, step: Step)
    requires InRange(s)
    ensures Apply(s, step).lost != s.lost ==> Escapes(s, step)
  {
    match step
    case Receive(_, _, _) =>
    case _ =>
  }

  ghost predicate NoEscapes(steps: seq<Step>) {
    steps == [] ||
    (NoEscapes(steps[..|steps| - 1]) && !Escapes(Exec(steps[..|steps| - 1]), steps[|steps| - 1]))
  }

  lemma {:induction false} NothingLost(steps: seq<Step>)
    requires NoEscapes(steps)
    ensures Exec(steps).lost == {}
  {
    if steps != [] {
      NothingLost(steps[..|steps| - 1]);
      InvInRange(Exec(steps[..|steps| - 1]));
      OnlyEscapesLose(Exec(steps[..|steps| - 1]), steps[|steps| - 1]);
    }
  }

  /** Nobody is in the middle of a call: no invite is being acknowledged and every watcher is done. */
  ghost predicate Settled(s: Session) {
    forall i: nat :: !Followed(s, i)
  }

  /** Once everything has settled, the only calls still open are those that were given up, and barring the two escapes
      there is none: as many ends as rings. */
  lemma EveryRingEnds(steps: seq<Step>)
    requires Settled(Exec(steps))
    ensures var s := Exec(steps);
            var open := OpenCalls(s.trace).value;
            && Rings(s.trace) == Ends(s.trace) + |open|
            && (forall id :: id in open ==> open[id].call in s.lost)
            && (NoEscapes(steps) ==> open == map[] && Rings(s.trace) == Ends(s.trace))
  {
    var s := Exec(steps);
    var open := OpenCalls(s.trace).value;
    RingsMinusEnds(s.trace);
    forall id | id in open ensures open[id].call in s.lost {
      assert IdOk(s, open, id) && CallOk(s, open, open[id].call);
      assert !Followed(s, open[id].call);
    }
    if NoEscapes(steps) {
      NothingLost(steps);
      assert open.Keys == {};
    }
  }

  lemma ExecAppend(steps: seq<Step>, step: Step)
    ensures InRange(Exec(steps)) && Exec(steps + [step]) == Apply(Exec(steps), step)
  {
    InvInRange(Exec(steps));
    assert (steps + [step])[..|steps|] == steps;
  }

  predicate IsInvite(p: CtpPacket) {
    p.IsSyn() && p.Opcode() == Some(OP_INVITE)
  }

  /** A session in which one call has rung and its ring is being acknowledged, and nothing else has happened. */
  ghost predicate JustRung(s: Session, p: CtpPacket) {
    && s.reader == AckingInvite(0, p) && s.trace == [Ring(0, RingEventOf(p))] && s.watchers == map[]
    && |s.conns| == 1 && s.conns[0].event.Some? && !s.conns[0].endReported
  }

  ghost predicate LeftOpen(s: Session, p: CtpPacket) {
    s.trace == [Ring(0, RingEventOf(p))] && Settled(s) && s.reader.Stopped?
  }

  lemma EscapesLeaveOpen(s: Session, p: CtpPacket)
    requires JustRung(s, p) && InRange(s)
    ensures LeftOpen(Apply(s, ReaderResumes(Cancelled)), p)
    ensures var acked := Apply(s, ReaderResumes(Sent));
            && InRange(acked) && InRange(Apply(acked, WatcherIsCancelled(0)))
            && LeftOpen(Apply(Apply(acked, WatcherIsCancelled(0)), ReaderStops), p)
  {
    var acked := Apply(s, ReaderResumes(Sent));
    assert acked.reader.Reading? && acked.watchers == map[0 := NotStarted] && acked.table == s.table;
    assert |acked.conns| == 1 && acked.conns[0].event.Some? && !acked.conns[0].endReported;
    var cancelled := Apply(acked, WatcherIsCancelled(0));
    assert cancelled.watchers == map[0 := Finished] && cancelled.trace == s.trace;
  }

  lemma InviteJustRings(payload: bytes, p: CtpPacket, ours: string, firstSeq: byte)
    requires ParseCtpPacket(payload) == Ok(p) && IsInvite(p)
    ensures InRange(Start) && JustRung(Apply(Start, Receive(payload, ours, firstSeq)), p)
  {
    hide ParseCtpPacket;
  }

  /** With the reader gone and nobody following the call, no step reports anything any more. */
  lemma LeftOpenStays(s: Session, step: Step, p: CtpPacket)
    requires Inv(s) && InRange(s) && LeftOpen(s, p)
    ensures LeftOpen(Apply(s, step), p)
  {
    if Watching(step) {
      NobodyWatches(s, step);
    } else if Enabled(s, step) {
      var s' := Apply(s, step);
      assert step.WatcherIsCancelled? ==> !Followed(s, step.call);
      assert s'.reader == s.reader && s'.trace == s.trace && s'.watchers == s.watchers;
      forall i: nat ensures !Followed(s', i) {
        assert !Followed(s, i);
      }
    }
  }

  /** A step of a watcher that has not finished. */
  predicate Watching(step: Step) {
    step.WatcherStarts? || step.WatcherReceives? || step.WatcherTimesOut? || step.WatcherFinSent?
  }

  lemma NobodyWatches(s: Session, step: Step)
    requires InRange(s) && Watching(step) && !Followed(s, step.call)
    ensures !Enabled(s, step) && Apply(s, step) == s
  {
  }

  lemma {:induction false} LeftOpenForGood(steps: seq<Step>, more: seq<Step>, p: CtpPacket)
    requires LeftOpen(Exec(steps), p)
    ensures LeftOpen(Exec(steps + more), p)
  {
    hide *;
    if more == [] {
      assert steps + [] == steps;
    } else {
      var front := steps + more[..|more| - 1];
      assert steps + more == front + [more[|more| - 1]];
      LeftOpenForGood(steps, more[..|more| - 1], p);
      ExecAppend(front, more[|more| - 1]);
      LeftOpenStays(Exec(front), more[|more| - 1], p);
    }
  }

  /** Both escapes are real: any invite, with the reader cancelled while it acknowledges it, or the watcher cancelled
      before it starts and then the reader, leaves a ring that has no end however the run goes on. */
  lemma EscapeLosesEnd(payload: bytes, p: CtpPacket, ours: string, firstSeq: byte)
    requires ParseCtpPacket(payload) == Ok(p) && IsInvite(p)
    ensures var receive := Receive(payload, ours, firstSeq);
            && (forall more :: LeftOpen(Exec([receive] + [ReaderResumes(Cancelled)] + more), p))
            && (forall more ::
                  LeftOpen(Exec([receive] + [ReaderResumes(Sent)] + [WatcherIsCancelled(0)] + [ReaderStops] + more), p))
  {
    var receive := Receive(payload, ours, firstSeq);
    var first := [receive] + [ReaderResumes(Cancelled)];
    var second := [receive] + [ReaderResumes(Sent)] + [WatcherIsCancelled(0)] + [ReaderStops];
    EscapesReached(payload, p, ours, firstSeq);
    hide LeftOpen, Exec;
    forall more ensures LeftOpen(Exec(first + more), p) {
      LeftOpenForGood(first, more, p);
    }
    forall more ensures LeftOpen(Exec(second + more), p) {
      LeftOpenForGood(second, more, p);
    }
  }

  lemma EscapesReached(payload: bytes, p: CtpPacket, ours: string, firstSeq: byte)
    requires ParseCtpPacket(payload) == Ok(p) && IsInvite(p)
    ensures var receive := Receive(payload, ours, firstSeq);
            && LeftOpen(Exec([receive] + [ReaderResumes(Cancelled)]), p)
            && LeftOpen(Exec([receive] + [ReaderResumes(Sent)] + [WatcherIsCancelled(0)] + [ReaderStops]), p)
  {
    var receive := Receive(payload, ours, firstSeq);
    InviteJustRings(payload, p, ours, firstSeq);
    assert Exec([receive]) == Apply(Start, receive) by {
      assert Exec([]) == Start;
      ExecAppend([], receive);
      assert [] + [receive] == [receive];
    }
    ExecAppend([receive], ReaderResumes(Cancelled));
    ExecAppend([receive], ReaderResumes(Sent));
    ExecAppend([receive] + [ReaderResumes(Sent)], WatcherIsCancelled(0));
    ExecAppend([receive] + [ReaderResumes(Sent)] + [WatcherIsCancelled(0)], ReaderStops);
    EscapesLeaveOpen(Exec([receive]), p);
  }

  // ---------------------------------------------------------------- the table

  /** In every reachable state an id leads to a live connection with that id for the peer's end, and the same id with
      the top bit toggled for ours; no connection is filed twice. */
  lemma TableIsConsistent(steps: seq<Step>, id: bytes)
    requires id in Exec(steps).table
    ensures var s := Exec(steps);
            && s.table[id] < |s.conns| && |id| == 2
            && var c := s.conns[s.table[id]];
               && c.peerId == id && c.localId == PeerConnectionId(id) && !c.failed
               && forall other :: other in s.table && s.table[other] == s.table[id] ==> other == id
  {
    var s := Exec(steps);
    var open := OpenCalls(s.trace).value;
    assert IdOk(s, open, id);
    assert CallOk(s, open, s.table[id]);
    forall other | other in s.table && s.table[other] == s.table[id] ensures other == id {
      assert IdOk(s, open, other);
    }
  }

  /** A displaced connection never holds its id again, so releasing it, however late, cannot take the id from its
      successor. */
  lemma ReleaseSparesSuccessor(steps: seq<Step>, i: nat)
    requires i < |Exec(steps).conns| && Exec(steps).conns[i].failed
    ensures ReleaseConnection(Exec(steps), i) == Exec(steps)
  {
    assert CallOk(Exec(steps), OpenCalls(Exec(steps).trace).value, i);
  }

  /** When a teardown completes, no id leads anywhere, and whatever was in the table has failed: its queued packets are
      still there, in order, with the sentinel behind them and no other. */
  lemma TeardownFailsEveryone(steps: seq<Step>, id: bytes)
    requires id in Exec(steps).table
    ensures FailsWithSentinel(Exec(steps), id)
  {
    var s := Exec(steps);
    TableIsConsistent(steps, id);
    assert InboxShape(s.conns[s.table[id]]) by {
      assert CallOk(s, OpenCalls(s.trace).value, s.table[id]);
    }
    TornDown(s, id);
  }

  ghost predicate FailsWithSentinel(s: Session, id: bytes)
    requires id in s.table
  {
    && s.table[id] < |s.conns| && FinishTeardown(s).table == map[] && FinishTeardown(s).registration == None
    && var was, c := s.conns[s.table[id]], FinishTeardown(s).conns[s.table[id]];
       && c.failed && c.inbox == was.inbox + [None]
       && forall j :: 0 <= j < |was.inbox| ==> was.inbox[j].Some?
  }

  lemma TornDown(s: Session, id: bytes)
    requires id in s.table && s.table[id] < |s.conns|
    requires var c := s.conns[s.table[id]]; c.peerId == id && InboxShape(c) && !c.failed
    ensures FailsWithSentinel(s, id)
  {
    hide FinishTeardown;
    var i := s.table[id];
    TornDownTo(s, i);
    assert Holder(s, s.conns[i].peerId) == Some(i);
  }

  // ---------------------------------------------------------------- which invites ring

  /** The call id in force on each connection id: all that decides whether an invite is a new call. */
  ghost function CurrentCalls(s: Session): map<bytes, Option<bytes>>
    requires InRange(s)
  {
    map k | k in s.table :: s.conns[s.table[k]].callId
  }

  /** A packet rings exactly when it is an opening INVITE whose call id is not the one in force on its id; either way
      that call id is in force from then on, and nothing changes on any other id. */
  lemma RingsExactlyWhenNew(s: Session, payload: bytes, ours: string, firstSeq: byte)
    requires Inv(s) && s.reader.Reading? && ParseCtpPacket(payload).Ok?
    ensures InRange(s) && InRange(DispatchCtp(s, payload, ours, firstSeq))
    ensures var p, s' := ParseCtpPacket(payload).value, DispatchCtp(s, payload, ours, firstSeq);
            var before, callId := CurrentCalls(s), InviteCallId(p.body);
            var rings := IsInvite(p) && !(p.connection in before && before[p.connection] == Some(callId));
            && (rings ==> s'.trace != [] && s'.trace[|s'.trace| - 1] == Ring(|s.conns|, RingEventOf(p)))
            && (!rings ==> s'.trace == s.trace)
            && CurrentCalls(s') == Updated(before, p)
  {
    InvInRange(s);
    var p, s' := ParseCtpPacket(payload).value, DispatchCtp(s, payload, ours, firstSeq);
    assert InRange(s') by {
      DispatchKeeps(s, payload, ours, firstSeq);
      InvInRange(s');
    }
    assert p.connection in s.table ==> s.conns[s.table[p.connection]].peerId == p.connection by {
      assert IdOk(s, OpenCalls(s.trace).value, p.connection);
    }
    DispatchRings(s, p, payload, ours, firstSeq);
    hide DispatchCtp, Inv, ParseCtpPacket;
    DispatchSetsCallId(s, p, payload, ours, firstSeq);
  }

  lemma DispatchRings(s: Session, p: CtpPacket, payload: bytes, ours: string, firstSeq: byte)
    requires InRange(s) && s.reader.Reading? && ParseCtpPacket(payload) == Ok(p)
    ensures var s', before := DispatchCtp(s, payload, ours, firstSeq), CurrentCalls(s);
            var rings := IsInvite(p) && !(p.connection in before && before[p.connection] == Some(InviteCallId(p.body)));
            && (rings ==> s'.trace != [] && s'.trace[|s'.trace| - 1] == Ring(|s.conns|, RingEventOf(p)))
            && (!rings ==> s'.trace == s.trace)
  {
    hide RingEventOf, ParseCtpPacket, InviteCallId;
  }

  lemma DispatchSetsCallId(s: Session, p: CtpPacket, payload: bytes, ours: string, firstSeq: byte)
    requires InRange(s) && InRange(DispatchCtp(s, payload, ours, firstSeq)) && ParseCtpPacket(payload) == Ok(p)
    requires p.connection in s.table ==> s.conns[s.table[p.connection]].peerId == p.connection
    ensures CurrentCalls(DispatchCtp(s, payload, ours, firstSeq)) == Updated(CurrentCalls(s), p)
  {
    var held := Holder(s, p.connection);
    if held.Some? && Displaces(p, s.conns[held.value]) {
      DisplaceForgets(s, held.value, p);
      AcceptSetsCallId(Displace(s, held.value), p, ours, firstSeq);
    } else if held.Some? {
      HandleKeepsCallIds(s, held.value, p);
      SameUpdated(CurrentCalls(s), p);
    } else if p.IsSyn() {
      AcceptSetsCallId(s, p, ours, firstSeq);
    }
  }

  /** The call ids in force once `p` has arrived. */
  ghost function Updated(before: map<bytes, Option<bytes>>, p: CtpPacket): map<bytes, Option<bytes>> {
    if IsInvite(p) then before[p.connection := Some(InviteCallId(p.body))] else before
  }

  lemma SameUpdated(before: map<bytes, Option<bytes>>, p: CtpPacket)
    requires p.connection in before && (IsInvite(p) ==> before[p.connection] == Some(InviteCallId(p.body)))
    ensures Updated(before, p) == before
  {
  }

  lemma DisplaceForgets(s: Session, i: nat, p: CtpPacket)
    requires InRange(s) && i < |s.conns| && s.conns[i].peerId == p.connection && IsInvite(p)
    ensures InRange(Displace(s, i)) && Updated(CurrentCalls(Displace(s, i)), p) == Updated(CurrentCalls(s), p)
  {
    assert CurrentCalls(Displace(s, i)) == CurrentCalls(s) - {p.connection};
  }

  lemma AcceptSetsCallId(s: Session, p: CtpPacket, ours: string, firstSeq: byte)
    requires InRange(s) && |p.connection| == 2 && p.IsSyn() && InRange(AcceptInbound(s, p, ours, firstSeq))
    ensures CurrentCalls(AcceptInbound(s, p, ours, firstSeq)) == Updated(CurrentCalls(s), p)
  {
    assert RingEventOf(p).callId == InviteCallId(p.body);
  }

  lemma HandleKeepsCallIds(s: Session, i: nat, p: CtpPacket)
    requires InRange(s) && i < |s.conns| && Holder(s, p.connection) == Some(i)
    ensures InRange(HandleIncoming(s, i, p)) && CurrentCalls(HandleIncoming(s, i, p)) == CurrentCalls(s)
  {
  }

  /** Apart from invites, a connection id's call id is set only when we open a connection; every other step can at most
      forget one. In particular the echo of our own INVITE, and any retransmit while the id is held, never ring. */
  lemma CallIdsOtherwiseOnlyForgotten(s: Session, step: Step)
    requires Inv(s) && !step.Receive?
    ensures InRange(s) && InRange(Apply(s, step))
    ensures var before, after := CurrentCalls(s), CurrentCalls(Apply(s, step));
            if step.Open? && Enabled(s, step) then after == before[PeerConnectionId(step.local) := step.callId]
            else forall k :: k in after ==> k in before && after[k] == before[k]
  {
    assert InRange(s) && InRange(Apply(s, step)) by {
      StepKeeps(s, step);
      InvInRange(Apply(s, step));
    }
    StepKeepsCallIds(s, step);
  }

  lemma StepKeepsCallIds(s: Session, step: Step)
    requires InRange(s) && InRange(Apply(s, step)) && !step.Receive?
    ensures var before, after := CurrentCalls(s), CurrentCalls(Apply(s, step));
            if step.Open? && Enabled(s, step) then after == before[PeerConnectionId(step.local) := step.callId]
            else forall k :: k in after ==> k in before && after[k] == before[k]
  {
    var s' := Apply(s, step);
    if !(step.Open? && Enabled(s, step)) {
      StepForgets(s, step);
      assert forall k :: k in s'.table ==> s'.conns[s'.table[k]].callId == s.conns[s.table[k]].callId;
    }
  }

  ghost predicate Forgets(s: Session, s': Session) {
    && |s'.conns| == |s.conns|
    && (forall i :: 0 <= i < |s.conns| ==> s'.conns[i].callId == s.conns[i].callId)
    && (forall k :: k in s'.table ==> k in s.table && s'.table[k] == s.table[k])
  }

  lemma FinishForgets(s: Session, i: nat, cause: Option<byte>)
    requires InRange(s) && i < |s.conns| && s.conns[i].event.Some?
    ensures Forgets(s, FinishWatch(s, i, cause))
  {
  }

  lemma WatcherForgets(s: Session, i: nat)
    requires InRange(s) && Watched(s, i) && s.conns[i].inbox != []
    ensures Forgets(s, WatcherTakes(s, i))
  {
    var c := s.conns[i];
    var rest := c.inbox[1..] + if c.inbox[0].None? then [None] else [];
    var s' := s.(conns := s.conns[i := c.(inbox := rest)]);
    assert Forgets(s, s');
    match c.inbox[0]
    case None => FinishForgets(s', i, None);
    case Some(p) =>
      assert rest == c.inbox[1..];
      FinishForgets(s', i, p.ReleaseCause());
  }

  lemma StepForgets(s: Session, step: Step)
    requires InRange(s) && !step.Receive? && !(step.Open? && Enabled(s, step))
    ensures Forgets(s, Apply(s, step))
  {
    hide RingEventOf, Calls.FinishTeardown;
    if Enabled(s, step) {
      match step
      case ReaderResumes(_) =>
      case WatcherReceives(i) => WatcherForgets(s, i);
      case WatcherTimesOut(i) => FinishForgets(s, i, None);
      case WatcherFinSent(i) => FinishForgets(s, i, s.watchers[i].cause);
      case WatcherIsCancelled(i) =>
        FinishForgets(s, i, if s.watchers[i].SendingFin? then s.watchers[i].cause else None);
      case TeardownEnds => TeardownForgets(s);
      case _ =>
    }
  }

  lemma TeardownForgets(s: Session)
    ensures Forgets(s, FinishTeardown(s))
  {
    TornDownAll(s);
    forall i: nat | i < |s.conns| ensures FinishTeardown(s).conns[i].callId == s.conns[i].callId {
      TornDownTo(s, i);
    }
  }
}
