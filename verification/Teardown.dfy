/** What a teardown means for those who wait on a connection (viper/session.py). */
module Teardown {
  import opened Bytes
  import opened Ctp
  import Calls
  import CallProperties
  import Unfiled
  import Session

  lemma AsPackets(inbox: seq<Calls.Entry>) returns (ps: seq<CtpPacket>)
    requires forall j :: 0 <= j < |inbox| ==> inbox[j].Some?
    ensures inbox == Session.Packets(ps)
  {
    ps := seq(|inbox|, j requires 0 <= j < |inbox| => inbox[j].value);
  }

  /** In every run, once a teardown completes, whoever waits on a connection that was in the table, then or at any time
      later and any number of times, is never left waiting: the waits get the packets that were queued, in order, and
      after them the failure each time. */
  lemma EveryWaitComesBack(steps: seq<Calls.Step>, id: bytes, n: nat)
    requires id in CallProperties.Exec(steps).table
    ensures var s := CallProperties.Exec(steps);
            && s.table[id] < |s.conns|
            && var queued, left := s.conns[s.table[id]].inbox, Calls.FinishTeardown(s).conns[s.table[id]].inbox;
               && (n < |queued| ==> queued[n].Some?)
               && Session.WaitFor(Session.AfterWaits(left, n), None, 1).0
                  == if n < |queued| then Session.Got(queued[n].value) else Session.LinkDown
  {
    var s := CallProperties.Exec(steps);
    CallProperties.TeardownFailsEveryone(steps, id);
    hide CallProperties.Exec, Calls.FinishTeardown, Session.WaitFor, Session.AfterWaits;
    var queued := s.conns[s.table[id]].inbox;
    var ps := AsPackets(queued);
    Session.FailedInboxDrains(ps, n);
  }

  /** And however the run goes on after it: what is left on such a connection is the end of what was queued, with the
      failure behind it; and a wait for any opcode or for none comes back, with what comes first of a matching packet, a
      RELEASE and the failure, unless its own time runs out before it has looked that far. */
  lemma LaterWaitsComeBack(steps: seq<Calls.Step>, id: bytes, more: seq<Calls.Step>, opcode: Option<u16>, turns: nat)
    requires id in CallProperties.Exec(steps).table && CallProperties.Exec(steps).reader.Stopped?
    ensures var s, later := CallProperties.Exec(steps), CallProperties.Exec(steps + [Calls.TeardownEnds] + more);
            var i := s.table[id];
            && i < |s.conns| && i < |later.conns|
            && var queued, left := s.conns[i].inbox, later.conns[i].inbox;
               var (result, rest) := Session.WaitFor(left, opcode, turns);
               && 0 < |left| <= |queued| + 1 && left == queued[|queued| + 1 - |left|..] + [None]
               && !result.Suspended? && (turns >= |left| ==> !result.TimedOut?)
               && rest != [] && rest[|rest| - 1].None?
  {
    var s, ended := CallProperties.Exec(steps), steps + [Calls.TeardownEnds];
    hide *;
    AfterTeardown(steps, id);
    var i := s.table[id];
    Unfiled.FailedOnlyDrains(ended, more, i);
    var later := CallProperties.Exec(ended + more);
    ShapeOf(later, i);
    LeftBehind(s.conns[i], CallProperties.Exec(ended).conns[i], later.conns[i], opcode, turns);
  }

  lemma AfterTeardown(steps: seq<Calls.Step>, id: bytes)
    requires id in CallProperties.Exec(steps).table && CallProperties.Exec(steps).reader.Stopped?
    ensures var s, ended := CallProperties.Exec(steps), CallProperties.Exec(steps + [Calls.TeardownEnds]);
            var i := s.table[id];
            && i < |s.conns| == |ended.conns| && ended.conns[i].failed
            && ended.conns[i].inbox == s.conns[i].inbox + [None]
  {
    hide *;
    CallProperties.TeardownFailsEveryone(steps, id);
    CallProperties.ExecAppend(steps, Calls.TeardownEnds);
    Applied(CallProperties.Exec(steps), id);
  }

  lemma Applied(s: Calls.Session, id: bytes)
    requires Calls.InRange(s) && s.reader.Stopped? && id in s.table && CallProperties.FailsWithSentinel(s, id)
    ensures var i, ended := s.table[id], Calls.Apply(s, Calls.TeardownEnds);
            i < |s.conns| == |ended.conns| && ended.conns[i].failed && ended.conns[i].inbox == s.conns[i].inbox + [None]
  {
    AppliedIs(s);
    hide Calls.FinishTeardown, Calls.Apply;
  }

  lemma AppliedIs(s: Calls.Session)
    requires Calls.InRange(s) && s.reader.Stopped?
    ensures Calls.Apply(s, Calls.TeardownEnds) == Calls.FinishTeardown(s)
    ensures |Calls.FinishTeardown(s).conns| == |s.conns|
  {
    SameCount(s);
    hide Calls.FinishTeardown, Calls.DispatchCtp, Calls.InviteAckEnds, Calls.AckEnds, Calls.WatcherTakes;
    hide Calls.FinishWatch, Calls.WatcherCancelled, Calls.OutboundConn, Calls.ReleaseConnection;
  }

  lemma SameCount(s: Calls.Session)
    ensures |Calls.FinishTeardown(s).conns| == |s.conns|
  {
  }

  lemma ShapeOf(s: Calls.Session, i: nat)
    requires Calls.Inv(s) && i < |s.conns|
    ensures Calls.InboxShape(s.conns[i])
  {
    assert Calls.CallOk(s, Calls.OpenCalls(s.trace).value, i);
  }

  lemma LeftBehind(was: Calls.Conn, ended: Calls.Conn, later: Calls.Conn, opcode: Option<u16>, turns: nat)
    requires ended.inbox == was.inbox + [None] && Unfiled.OnlyDrained(ended, later) && Calls.InboxShape(later)
    ensures var queued, left := was.inbox, later.inbox;
            var (result, rest) := Session.WaitFor(left, opcode, turns);
            && 0 < |left| <= |queued| + 1 && left == queued[|queued| + 1 - |left|..] + [None]
            && !result.Suspended? && (turns >= |left| ==> !result.TimedOut?)
            && rest != [] && rest[|rest| - 1].None?
  {
    var queued, left := was.inbox, later.inbox;
    assert (queued + [None])[|queued| + 1 - |left|..] == queued[|queued| + 1 - |left|..] + [None];
    hide Session.WaitFor;
    Session.FailedNeverHangs(left, opcode, turns);
  }
}
