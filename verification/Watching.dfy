/** What the watcher of an inbound call makes of the packets it gets (viper/session.py): when it stops, and which cause
    the end of the call is reported with. */
module Watching {
  import opened Bytes
  import opened Ctp
  import opened Calls
  import opened CallProperties
  import opened CallEnds
  import opened Deliveries

  predicate IsRelease(p: CtpPacket) {
    |p.body| >= 2 && p.body[0] == 0x00 && p.body[1] == 0x0E
  }

  /** A RELEASE, or any packet with the FIN bit. */
  predicate Signals(p: CtpPacket) {
    IsRelease(p) || p.flags / 0x20 % 2 == 1
  }

  predicate Quiet(ps: seq<CtpPacket>) {
    forall k :: 0 <= k < |ps| ==> !Signals(ps[k])
  }

  /** The byte after the opcode of the first of them that is a RELEASE or a FIN, if that is a RELEASE and has it. */
  function CauseOf(ps: seq<CtpPacket>): Option<byte> {
    if ps == [] then None
    else if !Signals(ps[0]) then CauseOf(ps[1..])
    else if IsRelease(ps[0]) && |ps[0].body| >= 3 then Some(ps[0].body[2])
    else None
  }

  lemma {:induction false} CauseAppend(ps: seq<CtpPacket>, p: CtpPacket)
    requires Quiet(ps)
    ensures CauseOf(ps) == None
    ensures CauseOf(ps + [p]) == CauseOf([p])
  {
    if ps == [] {
      assert [] + [p] == [p];
    } else {
      CauseAppend(ps[1..], p);
      assert (ps + [p])[1..] == ps[1..] + [p];
    }
  }

  lemma SignalsAre(p: CtpPacket)
    ensures (p.Opcode() == Some(OP_RELEASE) || p.IsFin()) <==> Signals(p)
    ensures Signals(p) ==> p.ReleaseCause() == CauseOf([p])
    ensures !Signals(p) ==> CauseOf([p]) == None
  {
  }

  // ---------------------------------------------------------------- the invariant

  ghost predicate DisplacedIn(steps: seq<Step>, i: nat) {
    exists m: nat :: DisplacedAt(steps, m, i)
  }

  /** Whether an end with this cause is what there is to tell of call `i`. */
  predicate Rightly(s: Session, i: nat, taken: seq<CtpPacket>, displaced: bool, cause: Option<byte>) {
    (cause == None && displaced) || (cause == CauseOf(taken) && !Followed(s, i))
  }

  predicate Told(s: Session, i: nat, taken: seq<CtpPacket>, displaced: bool) {
    forall j :: 0 <= j < |s.trace| && s.trace[j].End? && s.trace[j].call == i ==>
      Rightly(s, i, taken, displaced, s.trace[j].cause)
  }

  /** A watcher that waits has heard neither; one that sends its FIN has, and keeps the cause. */
  predicate Heard(s: Session, i: nat, taken: seq<CtpPacket>) {
    if i !in s.watchers then i < |s.conns| && s.conns[i].event.Some? ==> taken == []
    else match s.watchers[i]
      case NotStarted => taken == []
      case Waiting => Quiet(taken)
      case SendingFin(cause) => cause == CauseOf(taken) && !Quiet(taken)
      case Finished => true
  }

  // ---------------------------------------------------------------- one step

  /** What a step adds to the trace of call `i`. */
  predicate AddsRightly(s: Session, s': Session, i: nat, taken: seq<CtpPacket>, displaced: bool) {
    && s.trace <= s'.trace
    && forall j :: |s.trace| <= j < |s'.trace| && s'.trace[j].End? && s'.trace[j].call == i ==>
         Rightly(s', i, taken, displaced, s'.trace[j].cause)
  }

  lemma ReceiveTells(s: Session, step: Step, i: nat, taken: seq<CtpPacket>)
    requires Inv(s) && InRange(s) && step.Receive? && s.reader.Reading? && i < |s.conns| && Heard(s, i, taken)
    ensures AddsRightly(s, Apply(s, step), i, taken, Displaced(s, step) == Some(i))
    ensures Heard(Apply(s, step), i, taken)
  {
    hide Inv, RingEventOf, ParseCtpPacket;
  }

  lemma ResumeTells(s: Session, step: Step, i: nat, taken: seq<CtpPacket>)
    requires Inv(s) && InRange(s) && step.ReaderResumes? && Enabled(s, step) && i < |s.conns| && Heard(s, i, taken)
    ensures AddsRightly(s, Apply(s, step), i, taken, false)
    ensures Heard(Apply(s, step), i, taken)
  {
    hide RingEventOf, OpenCalls;
    assert s.reader.AckingInvite? ==> s.reader.call !in s.watchers && s.conns[s.reader.call].event.Some?;
    hide Inv;
  }

  lemma FinishTells(s: Session, i: nat, cause: Option<byte>, j: nat, taken: seq<CtpPacket>)
    requires j < |s.conns| && s.conns[j].event.Some? && i < |s.conns|
    requires i == j ==> cause == CauseOf(taken) && !BeingAcked(s, j)
    requires i != j ==> Heard(s, i, taken)
    ensures var s' := FinishWatch(s, j, cause); AddsRightly(s, s', i, taken, false) && Heard(s', i, taken)
  {
  }

  lemma NotAcked(s: Session, i: nat)
    requires Inv(s) && i in s.watchers
    ensures !BeingAcked(s, i) && i < |s.conns| && s.conns[i].event.Some?
  {
    assert CallOk(s, OpenCalls(s.trace).value, i);
  }

  lemma GetsTells(s: Session, j: nat, i: nat, taken: seq<CtpPacket>)
    requires Inv(s) && InRange(s) && Enabled(s, WatcherReceives(j)) && i < |s.conns| && Heard(s, i, taken)
    ensures var s', now := WatcherTakes(s, j), taken + Takings(s, WatcherReceives(j), i);
            AddsRightly(s, s', i, now, false) && Heard(s', i, now)
  {
    NotAcked(s, j);
    hide Inv, FinishWatch;
    var c := s.conns[j];
    assert i != j ==> taken + [] == taken;
    match c.inbox[0]
    case None =>
      var s1 := s.(conns := s.conns[j := c.(inbox := c.inbox[1..] + [None])]);
      if i == j {
        assert taken + [] == taken;
        QuietCause(taken);
      }
      FinishTells(s1, i, None, j, taken);
    case Some(p) =>
      SignalsAre(p);
      var s1 := s.(conns := s.conns[j := c.(inbox := c.inbox[1..])]);
      if i == j {
        CauseAppend(taken, p);
        assert !Signals(p) ==> Quiet(taken + [p]);
        assert (taken + [p])[|taken|] == p;
      }
      if Signals(p) && c.failed {
        FinishTells(s1, i, p.ReleaseCause(), j, taken + if i == j then [p] else []);
      }
  }

  lemma QuietCause(ps: seq<CtpPacket>)
    requires Quiet(ps)
    ensures CauseOf(ps) == None
  {
    if ps != [] {
      CauseAppend(ps, ps[0]);
    }
  }

  lemma WatcherTells(s: Session, step: Step, i: nat, taken: seq<CtpPacket>)
    requires Inv(s) && InRange(s) && Enabled(s, step) && i < |s.conns| && Heard(s, i, taken)
    requires step.WatcherTimesOut? || step.WatcherFinSent? || step.WatcherIsCancelled? || step.WatcherStarts?
    ensures AddsRightly(s, Apply(s, step), i, taken, false) && Heard(Apply(s, step), i, taken)
  {
    var j := step.call;
    NotAcked(s, j);
    hide Inv, FinishWatch;
    if i == j && s.watchers[j].Waiting? {
      QuietCause(taken);
    }
    match step
    case WatcherTimesOut(_) => FinishTells(s, i, None, j, taken);
    case WatcherFinSent(_) => FinishTells(s, i, s.watchers[j].cause, j, taken);
    case WatcherIsCancelled(_) =>
      if s.watchers[j].Waiting? || s.watchers[j].SendingFin? {
        FinishTells(s, i, if s.watchers[j].Waiting? then None else s.watchers[j].cause, j, taken);
      }
    case WatcherStarts(_) =>
  }

  lemma OthersTell(s: Session, step: Step, i: nat, taken: seq<CtpPacket>)
    requires InRange(s) && Enabled(s, step) && i < |s.conns| && Heard(s, i, taken) && s.conns[i].event.Some?
    requires step.ReaderStops? || step.Open? || step.Take? || step.Registered? || step.Release? || step.TeardownEnds?
    ensures AddsRightly(s, Apply(s, step), i, taken, false) && Heard(Apply(s, step), i, taken)
    ensures Takings(s, step, i) == []
  {
    hide FinishTeardown;
    TornDownAll(s);
    if step.TeardownEnds? {
      TornDownTo(s, i);
    }
  }

  lemma StepTells(s: Session, step: Step, i: nat, taken: seq<CtpPacket>)
    requires Inv(s) && InRange(s) && i < |s.conns| && s.conns[i].event.Some? && Heard(s, i, taken)
    ensures AddsRightly(s, Apply(s, step), i, taken + Takings(s, step, i), Displaced(s, step) == Some(i))
    ensures Heard(Apply(s, step), i, taken + Takings(s, step, i))
  {
    hide Inv, DispatchCtp, FinishTeardown, InviteAckEnds, AckEnds, WatcherTakes, FinishWatch, WatcherCancelled,
         ReleaseConnection, NewConnection, Heard, AddsRightly, Displaced;
    assert taken + [] == taken;
    if !Enabled(s, step) {
      NothingAdded(s, i, taken, Displaced(s, step) == Some(i));
    } else {
      match step
      case Receive(_, _, _) => ReceiveTells(s, step, i, taken);
      case ReaderResumes(_) =>
        ResumeTells(s, step, i, taken);
        NotDisplaced(s, step);
      case WatcherReceives(j) =>
        GetsTells(s, j, i, taken);
        NotDisplaced(s, step);
      case WatcherTimesOut(_) =>
        WatcherTells(s, step, i, taken);
        NotDisplaced(s, step);
      case WatcherFinSent(_) =>
        WatcherTells(s, step, i, taken);
        NotDisplaced(s, step);
      case WatcherIsCancelled(_) =>
        WatcherTells(s, step, i, taken);
        NotDisplaced(s, step);
      case WatcherStarts(_) =>
        WatcherTells(s, step, i, taken);
        NotDisplaced(s, step);
      case _ =>
        OthersTell(s, step, i, taken);
        NotDisplaced(s, step);
    }
  }

  lemma NotDisplaced(s: Session, step: Step)
    requires !step.Receive?
    ensures Displaced(s, step) == None
  {
  }

  lemma NothingAdded(s: Session, i: nat, taken: seq<CtpPacket>, displaced: bool)
    ensures AddsRightly(s, s, i, taken, displaced)
  {
  }

  // ---------------------------------------------------------------- every run

  lemma TellsStill(s: Session, s': Session, i: nat, taken: seq<CtpPacket>, takings: seq<CtpPacket>, before: bool,
                   now: bool)
    requires Told(s, i, taken, before) && AddsRightly(s, s', i, taken + takings, now)
    requires (Followed(s', i) ==> Followed(s, i)) && (takings != [] ==> Followed(s, i))
    ensures Told(s', i, taken + takings, before || now)
  {
    hide Followed, CauseOf;
    assert takings == [] ==> taken + takings == taken;
    forall j | 0 <= j < |s'.trace| && s'.trace[j].End? && s'.trace[j].call == i
      ensures Rightly(s', i, taken + takings, before || now, s'.trace[j].cause)
    {
      if j < |s.trace| {
        assert s'.trace[j] == s.trace[j];
        assert Rightly(s, i, taken, before, s.trace[j].cause);
      } else {
        assert Rightly(s', i, taken + takings, now, s'.trace[j].cause);
      }
    }
  }

  lemma TakersFollow(s: Session, step: Step, i: nat)
    requires InRange(s) && i < |s.conns| && s.conns[i].event.Some?
    ensures Takings(s, step, i) != [] ==> Followed(s, i)
  {
  }

  lemma DisplacedOn(steps: seq<Step>, i: nat)
    requires steps != []
    ensures var front := steps[..|steps| - 1];
            DisplacedIn(steps, i) <==> DisplacedIn(front, i) || Displaced(Exec(front), steps[|front|]) == Some(i)
  {
    hide Displaced, Exec;
    var front := steps[..|steps| - 1];
    forall m: nat | m < |front| ensures DisplacedAt(steps, m, i) <==> DisplacedAt(front, m, i) {
      assert steps[..m] == front[..m];
    }
    assert steps[..|front|] == front;
    assert DisplacedAt(steps, |front|, i) <==> Displaced(Exec(front), steps[|front|]) == Some(i);
  }

  lemma NewIsUntold(s: Session, step: Step, i: nat)
    requires Inv(s) && InRange(s) && |s.conns| <= i < |Apply(s, step).conns|
    ensures Told(Apply(s, step), i, [], false) && i !in Apply(s, step).watchers
  {
    hide OpenCalls, Shape;
    StepReports(s, step);
    assert i !in s.watchers by {
      WatchersAreOld(s);
    }
    hide Inv, DispatchCtp, FinishTeardown, RingEventOf;
    if step.Receive? && s.reader.Reading? {
      ReceiveKeepsWatchers(s, step.payload, step.ours, step.firstSeq);
    } else if !step.Open? {
      OthersMakeNone(s, step);
    }
  }

  lemma WatchersAreOld(s: Session)
    requires Inv(s)
    ensures forall i :: i in s.watchers ==> i < |s.conns|
  {
  }

  lemma ReceiveKeepsWatchers(s: Session, payload: bytes, ours: string, firstSeq: byte)
    requires InRange(s) && s.reader.Reading?
    ensures DispatchCtp(s, payload, ours, firstSeq).watchers == s.watchers
  {
    hide Displaces, RingEventOf, ParseCtpPacket;
  }

  lemma {:induction false} AlwaysTold(steps: seq<Step>, i: nat)
    requires i < |Exec(steps).conns| && Exec(steps).conns[i].event.Some?
    ensures Told(Exec(steps), i, Taken(steps, i), DisplacedIn(steps, i)) && Heard(Exec(steps), i, Taken(steps, i))
  {
    hide Apply, Told, Heard, AddsRightly, Displaced, Followed, Takings, DisplacedIn;
    if steps != [] {
      var front, last := steps[..|steps| - 1], steps[|steps| - 1];
      var s := Exec(front);
      InvInRange(s);
      DisplacedOn(steps, i);
      if i < |s.conns| {
        OnCall(s, last, i);
        AlwaysTold(front, i);
        StepTells(s, last, i, Taken(front, i));
        TakersFollow(s, last, i);
        TellsStill(s, Exec(steps), i, Taken(front, i), Takings(s, last, i), DisplacedIn(front, i),
                   Displaced(s, last) == Some(i));
      } else {
        NewIsUntold(s, last, i);
        ReaderAlwaysAwaits(front);
        FirstSight(s, Awaited(front), last, i);
        NothingBefore(front, i);
        assert Taken(steps, i) == [];
        StartsUntold(Exec(steps), i, DisplacedIn(steps, i));
      }
    }
  }

  lemma StartsUntold(s: Session, i: nat, displaced: bool)
    requires Told(s, i, [], false) && i !in s.watchers
    ensures Told(s, i, [], displaced) && Heard(s, i, [])
  {
  }

  /** Every report is about a call. */
  predicate CallsOnly(s: Session) {
    forall j :: 0 <= j < |s.trace| ==> s.trace[j].call < |s.conns| && s.conns[s.trace[j].call].event.Some?
  }

  lemma {:induction false} ReportsAreOfCalls(steps: seq<Step>)
    ensures CallsOnly(Exec(steps))
  {
    hide Apply, CallsOnly;
    if steps == [] {
      NoReportsYet();
    } else {
      var front, last := steps[..|steps| - 1], steps[|steps| - 1];
      InvInRange(Exec(front));
      ReportsAreOfCalls(front);
      StepReportsCalls(Exec(front), last);
    }
  }

  lemma NoReportsYet()
    ensures CallsOnly(Start)
  {
  }

  lemma StepReportsCalls(s: Session, step: Step)
    requires Inv(s) && InRange(s) && CallsOnly(s)
    ensures CallsOnly(Apply(s, step))
  {
    hide Inv, DispatchCtp, FinishTeardown, RingEventOf, CallsOnly;
    if step.Receive? && s.reader.Reading? {
      AppliedReceive(s, step);
      ReceiveReportsCalls(s, step.payload, step.ours, step.firstSeq);
    } else if step.TeardownEnds? {
      TeardownReportsCalls(s);
    } else {
      OthersReportCalls(s, step);
    }
  }

  lemma TeardownReportsCalls(s: Session)
    requires CallsOnly(s)
    ensures CallsOnly(FinishTeardown(s))
  {
    hide FinishTeardown;
    TornDownAll(s);
    forall j | 0 <= j < |s.trace| ensures FinishTeardown(s).conns[s.trace[j].call].event.Some? {
      TornDownTo(s, s.trace[j].call);
    }
  }

  lemma OthersReportCalls(s: Session, step: Step)
    requires Inv(s) && InRange(s) && CallsOnly(s) && !step.TeardownEnds? && !(step.Receive? && s.reader.Reading?)
    ensures CallsOnly(Apply(s, step))
  {
    if Enabled(s, step) && (step.WatcherReceives? || step.WatcherTimesOut? || step.WatcherFinSent?
                            || step.WatcherIsCancelled?) {
      NotAcked(s, step.call);
      hide Inv, CallsOnly;
      WatcherReportsCalls(s, step);
    } else if step.ReaderResumes? {
      ResumeReportsCalls(s, step.outcome);
    } else {
      hide Inv, OutboundConn, ReleaseConnection, InviteAckEnds, AckEnds, WatcherTakes, FinishWatch, WatcherCancelled;
    }
  }

  lemma ResumeReportsCalls(s: Session, o: SendOutcome)
    requires Inv(s) && InRange(s) && CallsOnly(s)
    ensures CallsOnly(Apply(s, ReaderResumes(o)))
  {
    assert s.reader.AckingInvite? ==> s.conns[s.reader.call].event.Some?;
    hide Inv;
  }

  lemma WatcherReportsCalls(s: Session, step: Step)
    requires step.WatcherReceives? || step.WatcherTimesOut? || step.WatcherFinSent? || step.WatcherIsCancelled?
    requires InRange(s) && CallsOnly(s) && Enabled(s, step) && step.call < |s.conns| && s.conns[step.call].event.Some?
    ensures CallsOnly(Apply(s, step))
  {
    hide FinishWatch, CallsOnly;
    var j := step.call;
    FinishReportsCalls(s, j, None);
    if s.watchers[j].SendingFin? {
      FinishReportsCalls(s, j, s.watchers[j].cause);
    }
    if step.WatcherReceives? {
      TakesReportsCalls(s, j);
    } else if step.WatcherIsCancelled? {
      SameReports(s, Apply(s, step));
    }
  }

  lemma SameReports(s: Session, s': Session)
    requires CallsOnly(s)
    ensures s'.trace == s.trace && s'.conns == s.conns ==> CallsOnly(s')
  {
  }

  lemma FinishReportsCalls(s: Session, j: nat, cause: Option<byte>)
    requires CallsOnly(s) && j < |s.conns| && s.conns[j].event.Some?
    ensures CallsOnly(FinishWatch(s, j, cause))
  {
  }

  lemma TakesReportsCalls(s: Session, j: nat)
    requires CallsOnly(s) && j < |s.conns| && s.conns[j].event.Some? && s.conns[j].inbox != []
    ensures CallsOnly(WatcherTakes(s, j))
  {
  }

  lemma ReceiveReportsCalls(s: Session, payload: bytes, ours: string, firstSeq: byte)
    requires InRange(s) && s.reader.Reading? && CallsOnly(s)
    ensures CallsOnly(DispatchCtp(s, payload, ours, firstSeq))
  {
    hide ParseCtpPacket, RingEventOf, Displaces, Displace, AcceptInbound, HandleIncoming, CallsOnly;
    match ParseCtpPacket(payload)
    case ValueError =>
    case Ok(p) =>
      Parsed(payload);
      var held := Holder(s, p.connection);
      if held.Some? && Displaces(p, s.conns[held.value]) {
        DisplaceReportsCalls(s, held.value);
        AcceptReportsCalls(Displace(s, held.value), p, ours, firstSeq);
      } else if held.Some? {
        HandleReportsCalls(s, held.value, p);
      } else if p.IsSyn() {
        AcceptReportsCalls(s, p, ours, firstSeq);
      }
  }

  lemma DisplaceReportsCalls(s: Session, j: nat)
    requires CallsOnly(s) && j < |s.conns|
    ensures CallsOnly(Displace(s, j))
  {
  }

  lemma HandleReportsCalls(s: Session, j: nat, p: CtpPacket)
    requires CallsOnly(s) && j < |s.conns|
    ensures CallsOnly(HandleIncoming(s, j, p))
  {
  }

  lemma AcceptReportsCalls(s: Session, p: CtpPacket, ours: string, firstSeq: byte)
    requires CallsOnly(s) && |p.connection| == 2
    ensures CallsOnly(AcceptInbound(s, p, ours, firstSeq))
  {
    hide RingEventOf;
  }

  // ---------------------------------------------------------------- the results

  /** A call is watched only until a RELEASE or a FIN has come: in every run, whatever a watcher that is still waiting
      has got was neither. */
  lemma WaitingHasHeardNothing(steps: seq<Step>, i: nat)
    requires i in Exec(steps).watchers && Exec(steps).watchers[i].Waiting?
    ensures Quiet(Taken(steps, i))
  {
    NotAcked(Exec(steps), i);
    AlwaysTold(steps, i);
  }

  /** In every run an end is reported with the cause that the RELEASE names which its watcher got first, and with none
      if it got a FIN first or neither; or with none because the call was displaced. */
  lemma EndTellsTheCause(steps: seq<Step>, j: nat)
    requires j < |Exec(steps).trace| && Exec(steps).trace[j].End?
    ensures var end := Exec(steps).trace[j];
            end.cause == CauseOf(Taken(steps, end.call)) || (end.cause == None && DisplacedIn(steps, end.call))
  {
    hide Apply, Heard, CauseOf, Followed, DisplacedIn, OpenCalls;
    ReportsAreOfCalls(steps);
    AlwaysTold(steps, Exec(steps).trace[j].call);
  }
}
