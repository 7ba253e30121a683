/** Exactly which rings end (viper/session.py): a call that nobody follows any more can still be displaced. */
module CallEnds {
  import opened Bytes
  import opened Ctp
  import opened Calls
  import opened CallProperties

  /** The call that a step gives up. */
  function GivenUp(s: Session, step: Step): Option<nat> {
    if !Escapes(s, step) then None
    else if step.ReaderResumes? then Some(s.reader.call)
    else Some(step.call)
  }

  /** The connection that a step displaces. */
  function Displaced(s: Session, step: Step): Option<nat> {
    if !step.Receive? || !s.reader.Reading? then None
    else match ParseCtpPacket(step.payload)
      case ValueError => None
      case Ok(p) =>
        var held := Holder(s, p.connection);
        if held.Some? && held.value < |s.conns| && Displaces(p, s.conns[held.value]) then held else None
  }

  /** In this run, call `i` is given up at step `n`. */
  ghost predicate GivenUpAt(steps: seq<Step>, n: nat, i: nat) {
    n < |steps| && GivenUp(Exec(steps[..n]), steps[n]) == Some(i)
  }

  /** In this run, connection `i` is displaced at step `n`. */
  ghost predicate DisplacedAt(steps: seq<Step>, n: nat, i: nat) {
    n < |steps| && Displaced(Exec(steps[..n]), steps[n]) == Some(i)
  }

  predicate EndIn(trace: seq<Report>, i: nat) {
    exists j :: 0 <= j < |trace| && trace[j].End? && trace[j].call == i
  }

  predicate RingIn(trace: seq<Report>, i: nat) {
    exists j :: 0 <= j < |trace| && trace[j].Ring? && trace[j].call == i
  }

  // ---------------------------------------------------------------- one step

  /** Who can end a call, or give it up: whoever follows it, or an INVITE that lands on its id. */
  ghost predicate StepOnCall(s: Session, step: Step, s': Session, i: nat)
    requires i < |s.conns| <= |s'.conns|
  {
    && s.trace <= s'.trace
    && (EndIn(s'.trace, i) ==> EndIn(s.trace, i) || Displaced(s, step) == Some(i) || Followed(s, i))
    && (s'.conns[i].endReported <==>
          s.conns[i].endReported || (Displaced(s, step) == Some(i) && s.conns[i].event.Some?))
    && (Displaced(s, step) == Some(i) && s.conns[i].event.Some? ==> EndIn(s'.trace, i))
    && s'.conns[i].event == s.conns[i].event
    && (Followed(s', i) ==> Followed(s, i))
    && (i in s'.lost <==> i in s.lost || GivenUp(s, step) == Some(i))
    && (i in s'.lost && i !in s.lost ==> Followed(s, i) && !Followed(s', i))
  }

  lemma EndAppend(trace: seq<Report>, r: Report, i: nat)
    ensures EndIn(trace + [r], i) <==> EndIn(trace, i) || (r.End? && r.call == i)
  {
    var longer := trace + [r];
    assert longer[|trace|] == r;
    if EndIn(trace, i) {
      var j :| 0 <= j < |trace| && trace[j].End? && trace[j].call == i;
      assert longer[j] == trace[j];
    }
  }

  lemma AcceptOnCall(s: Session, p: CtpPacket, ours: string, firstSeq: byte, i: nat)
    requires s.reader.Reading? && |p.connection| == 2 && i < |s.conns|
    ensures var s' := AcceptInbound(s, p, ours, firstSeq);
            && |s.conns| <= |s'.conns| && s.trace <= s'.trace && (EndIn(s'.trace, i) <==> EndIn(s.trace, i))
            && s'.conns[i] == s.conns[i] && s'.lost == s.lost && (Followed(s', i) ==> Followed(s, i))
  {
    EndAppend(s.trace, Ring(|s.conns|, RingEventOf(p)), i);
  }

  lemma DisplaceOnCall(s: Session, j: nat, i: nat)
    requires s.reader.Reading? && j < |s.conns| && i < |s.conns|
    ensures var s' := Displace(s, j);
            && s'.reader.Reading? && |s'.conns| == |s.conns| && s.trace <= s'.trace && s'.lost == s.lost
            && (EndIn(s'.trace, i) <==> EndIn(s.trace, i) || (i == j && s.conns[i].event.Some?))
            && s'.conns[i].event == s.conns[i].event && (Followed(s', i) ==> Followed(s, i))
            && (s'.conns[i].endReported <==> s.conns[i].endReported || (i == j && s.conns[i].event.Some?))
  {
    if s.conns[j].event.Some? {
      EndAppend(s.trace, End(j, s.conns[j].event.value, None), i);
    }
  }

  lemma ReceiveOnCall(s: Session, payload: bytes, ours: string, firstSeq: byte, i: nat)
    requires s.reader.Reading? && InRange(s) && i < |s.conns|
    ensures var s' := DispatchCtp(s, payload, ours, firstSeq);
            |s.conns| <= |s'.conns| && StepOnCall(s, Receive(payload, ours, firstSeq), s', i)
  {
    match ParseCtpPacket(payload)
    case ValueError =>
    case Ok(p) =>
      var held := Holder(s, p.connection);
      hide Displaces, Displace, AcceptInbound, EndIn, Followed;
      if held.Some? && Displaces(p, s.conns[held.value]) {
        DisplaceOnCall(s, held.value, i);
        AcceptOnCall(Displace(s, held.value), p, ours, firstSeq, i);
      } else if held.Some? {
        HandleOnCall(s, held.value, p, i);
      } else if p.IsSyn() {
        AcceptOnCall(s, p, ours, firstSeq, i);
      }
  }

  lemma HandleOnCall(s: Session, j: nat, p: CtpPacket, i: nat)
    requires s.reader.Reading? && j < |s.conns| && i < |s.conns|
    ensures var s' := HandleIncoming(s, j, p);
            && |s'.conns| == |s.conns| && s'.trace == s.trace && s'.lost == s.lost
            && s'.conns[i].event == s.conns[i].event && s'.conns[i].endReported == s.conns[i].endReported
            && (Followed(s', i) ==> Followed(s, i))
  {
  }

  lemma FinishOnCall(s: Session, j: nat, cause: Option<byte>, i: nat)
    requires j < |s.conns| && i < |s.conns| && s.conns[j].event.Some? && BeingWatched(s, j)
    ensures var s' := FinishWatch(s, j, cause);
            && s'.conns == s.conns && s'.lost == s.lost && s.trace <= s'.trace
            && (EndIn(s'.trace, i) ==> EndIn(s.trace, i) || Followed(s, i))
            && (Followed(s', i) ==> Followed(s, i))
  {
    EndAppend(s.trace, End(j, s.conns[j].event.value, cause), i);
  }

  lemma TakesOnCall(s: Session, j: nat, i: nat)
    requires i < |s.conns| && Watched(s, j) && s.watchers[j].Waiting? && s.conns[j].inbox != []
    ensures var s' := WatcherTakes(s, j);
            && |s'.conns| == |s.conns| && s'.lost == s.lost && s.trace <= s'.trace
            && (EndIn(s'.trace, i) ==> EndIn(s.trace, i) || Followed(s, i))
            && (Followed(s', i) ==> Followed(s, i))
            && s'.conns[i].event == s.conns[i].event && s'.conns[i].endReported == s.conns[i].endReported
  {
    var c := s.conns[j];
    var rest := if c.inbox[0].None? then c.inbox[1..] + [None] else c.inbox[1..];
    var taken := s.(conns := s.conns[j := c.(inbox := rest)]);
    var cause := if c.inbox[0].None? then None else c.inbox[0].value.ReleaseCause();
    hide EndIn, FinishWatch;
    FinishOnCall(taken, j, cause, i);
  }

  lemma WatcherOnCall(s: Session, step: Step, i: nat)
    requires Inv(s) && InRange(s) && i < |s.conns| && Enabled(s, step)
    requires step.WatcherReceives? || step.WatcherTimesOut? || step.WatcherFinSent? || step.WatcherIsCancelled?
    ensures |Apply(s, step).conns| == |s.conns| && StepOnCall(s, step, Apply(s, step), i)
  {
    hide EndIn, FinishWatch;
    var j := step.call;
    match step
    case WatcherReceives(_) => TakesOnCall(s, j, i);
    case WatcherTimesOut(_) => FinishOnCall(s, j, None, i);
    case WatcherFinSent(_) => FinishOnCall(s, j, s.watchers[j].cause, i);
    case WatcherIsCancelled(_) =>
      if s.watchers[j].Waiting? || s.watchers[j].SendingFin? {
        FinishOnCall(s, j, if s.watchers[j].Waiting? then None else s.watchers[j].cause, i);
      }
  }

  lemma ReaderOnCall(s: Session, o: SendOutcome, i: nat)
    requires Inv(s) && InRange(s) && i < |s.conns| && Enabled(s, ReaderResumes(o))
    ensures var s' := Apply(s, ReaderResumes(o));
            |s'.conns| == |s.conns| && StepOnCall(s, ReaderResumes(o), s', i)
  {
    hide RingEventOf, EndIn;
    EndAppendAll(s.trace, i);
  }

  lemma EndAppendAll(trace: seq<Report>, i: nat)
    ensures forall r :: EndIn(trace + [r], i) <==> EndIn(trace, i) || (r.End? && r.call == i)
  {
    hide EndIn;
    forall r ensures EndIn(trace + [r], i) <==> EndIn(trace, i) || (r.End? && r.call == i) {
      EndAppend(trace, r, i);
    }
  }

  lemma OnCall(s: Session, step: Step, i: nat)
    requires Inv(s) && InRange(s) && i < |s.conns|
    ensures |s.conns| <= |Apply(s, step).conns| && StepOnCall(s, step, Apply(s, step), i)
  {
    if Enabled(s, step) {
      match step {
        case Receive(payload, ours, firstSeq) => ReceiveOnCall(s, payload, ours, firstSeq, i);
        case ReaderResumes(o) => ReaderOnCall(s, o, i);
        case WatcherReceives(_) => WatcherOnCall(s, step, i);
        case WatcherTimesOut(_) => WatcherOnCall(s, step, i);
        case WatcherFinSent(_) => WatcherOnCall(s, step, i);
        case WatcherIsCancelled(_) => WatcherOnCall(s, step, i);
        case _ =>
      }
    }
  }

  // ---------------------------------------------------------------- the trace

  lemma {:induction false} StillOpen(trace: seq<Report>, p: nat)
    requires OpenCalls(trace).Some? && p < |trace| && trace[p].Ring? && !EndIn(trace, trace[p].call)
    ensures trace[p].event.connection in OpenCalls(trace).value
    ensures OpenCalls(trace).value[trace[p].event.connection] == trace[p]
  {
    var n := |trace| - 1;
    if p < n {
      assert trace == trace[..n] + [trace[n]];
      EndAppend(trace[..n], trace[n], trace[p].call);
      StillOpen(trace[..n], p);
    }
  }

  lemma RingingNotEnded(s: Session, i: nat)
    requires Inv(s) && RingsFresh(s.trace) && i < |s.conns| && Ringing(s, OpenCalls(s.trace).value, i)
    ensures RingIn(s.trace, i) && !EndIn(s.trace, i)
  {
    var id := s.conns[i].peerId;
    OneOpenPerCall(s.trace);
    var j :| 0 <= j < |s.trace| && s.trace[j] == OpenCalls(s.trace).value[id];
    if EndIn(s.trace, i) {
      var e :| 0 <= e < |s.trace| && s.trace[e].End? && s.trace[e].call == i;
      ClosedForGood(s.trace, e);
    }
  }

  /** A call is given up while it is open. */
  lemma GivenUpWhileOpen(s: Session, step: Step, i: nat)
    requires Inv(s) && GivenUp(s, step) == Some(i)
    ensures i < |s.conns| && s.conns[i].event.Some? && !s.conns[i].endReported && Followed(s, i)
    ensures Ringing(s, OpenCalls(s.trace).value, i) && Apply(s, step).trace == s.trace && !step.Receive?
  {
    InvInRange(s);
    assert CallOk(s, OpenCalls(s.trace).value, i);
  }

  // ---------------------------------------------------------------- runs

  /** What the run says of connection `i`. */
  ghost predicate Story(steps: seq<Step>, i: nat)
    requires i < |Exec(steps).conns|
  {
    var s := Exec(steps);
    && (i in s.lost <==> exists n :: GivenUpAt(steps, n, i))
    && (s.conns[i].event.Some? ==> (s.conns[i].endReported <==> exists n :: DisplacedAt(steps, n, i)))
    && (i in s.lost ==>
          s.conns[i].event.Some? && !Followed(s, i) && RingIn(s.trace, i)
          && (EndIn(s.trace, i) <==> s.conns[i].endReported))
  }

  lemma AtPrefix(steps: seq<Step>, m: nat, n: nat, i: nat)
    requires n < m <= |steps|
    ensures GivenUpAt(steps, n, i) <==> GivenUpAt(steps[..m], n, i)
    ensures DisplacedAt(steps, n, i) <==> DisplacedAt(steps[..m], n, i)
  {
    assert steps[..m][..n] == steps[..n];
  }

  /** The last step tells whether the quantifiers over a run grow. */
  lemma AtLast(steps: seq<Step>, i: nat)
    requires steps != []
    ensures var front, last := steps[..|steps| - 1], steps[|steps| - 1];
            && ((exists n :: GivenUpAt(steps, n, i))
                <==> (exists n :: GivenUpAt(front, n, i)) || GivenUp(Exec(front), last) == Some(i))
            && ((exists n :: DisplacedAt(steps, n, i))
                <==> (exists n :: DisplacedAt(front, n, i)) || Displaced(Exec(front), last) == Some(i))
  {
    hide GivenUp, Displaced, Exec;
    var m := |steps| - 1;
    forall n: nat | n < m
      ensures GivenUpAt(steps, n, i) <==> GivenUpAt(steps[..m], n, i)
      ensures DisplacedAt(steps, n, i) <==> DisplacedAt(steps[..m], n, i)
    {
      AtPrefix(steps, m, n, i);
    }
    assert GivenUpAt(steps, m, i) <==> GivenUp(Exec(steps[..m]), steps[m]) == Some(i);
    assert DisplacedAt(steps, m, i) <==> Displaced(Exec(steps[..m]), steps[m]) == Some(i);
  }

  /** A connection that is still to be made was neither given up nor displaced. */
  lemma {:induction false} NotBeforeItIsMade(steps: seq<Step>, i: nat)
    requires |Exec(steps).conns| <= i
    ensures !exists n :: GivenUpAt(steps, n, i)
    ensures !exists n :: DisplacedAt(steps, n, i)
    ensures i !in Exec(steps).lost && !Followed(Exec(steps), i)
  {
    var s := Exec(steps);
    InvInRange(s);
    if steps != [] {
      var before := Exec(steps[..|steps| - 1]);
      InvInRange(before);
      StepReports(before, steps[|steps| - 1]);
      NotBeforeItIsMade(steps[..|steps| - 1], i);
      AtLast(steps, i);
      if GivenUp(before, steps[|steps| - 1]) == Some(i) {
        GivenUpWhileOpen(before, steps[|steps| - 1], i);
      }
    }
  }

  lemma {:induction false} EveryStory(steps: seq<Step>, i: nat)
    requires i < |Exec(steps).conns|
    ensures Story(steps, i)
  {
    if steps != [] {
      var front, last := steps[..|steps| - 1], steps[|steps| - 1];
      InvInRange(Exec(front));
      AtLast(steps, i);
      if i < |Exec(front).conns| {
        EveryStory(front, i);
        StoryOn(steps, i);
      } else {
        NotBeforeItIsMade(front, i);
        MadeByStep(Exec(front), last, i);
      }
    }
  }

  lemma MadeByStep(s: Session, step: Step, i: nat)
    requires Inv(s) && InRange(s) && |s.conns| <= i < |Apply(s, step).conns| && i !in s.lost
    ensures var s' := Apply(s, step);
            && !s'.conns[i].endReported && i !in s'.lost
            && GivenUp(s, step) != Some(i) && Displaced(s, step) != Some(i)
  {
    if GivenUp(s, step) == Some(i) {
      GivenUpWhileOpen(s, step, i);
    }
    hide GivenUp, Escapes;
    if step.Receive? && s.reader.Reading? {
      hide Apply, DispatchCtp;
      ReceiveMakes(s, step.payload, step.ours, step.firstSeq);
      AppliedReceive(s, step);
    } else if !step.Open? {
      OthersMakeNone(s, step);
    }
  }

  lemma AppliedReceive(s: Session, step: Step)
    requires InRange(s) && step.Receive? && s.reader.Reading?
    ensures Apply(s, step) == DispatchCtp(s, step.payload, step.ours, step.firstSeq)
  {
    hide DispatchCtp;
  }

  lemma ReceiveMakes(s: Session, payload: bytes, ours: string, firstSeq: byte)
    requires InRange(s) && s.reader.Reading?
    ensures var s' := DispatchCtp(s, payload, ours, firstSeq);
            && s'.lost == s.lost && forall i :: |s.conns| <= i < |s'.conns| ==> !s'.conns[i].endReported
  {
    hide Displaces, RingEventOf, ParseCtpPacket;
  }

  lemma OthersMakeNone(s: Session, step: Step)
    requires InRange(s) && !step.Open? && !(step.Receive? && s.reader.Reading?)
    ensures |Apply(s, step).conns| == |s.conns|
  {
  }

  lemma StoryOn(steps: seq<Step>, i: nat)
    requires steps != [] && i < |Exec(steps[..|steps| - 1]).conns| && Story(steps[..|steps| - 1], i)
    ensures i < |Exec(steps).conns| && Story(steps, i)
  {
    var front, last := steps[..|steps| - 1], steps[|steps| - 1];
    var s, s' := Exec(front), Exec(steps);
    InvInRange(s);
    OnCall(s, last, i);
    AtLast(steps, i);
    EndPrefix(s.trace, s'.trace, i);
    if GivenUp(s, last) == Some(i) {
      RingsAreFresh(front);
      GivenUpWhileOpen(s, last, i);
      RingingNotEnded(s, i);
    }
  }

  lemma EndPrefix(trace: seq<Report>, longer: seq<Report>, i: nat)
    requires trace <= longer
    ensures EndIn(trace, i) ==> EndIn(longer, i)
    ensures RingIn(trace, i) ==> RingIn(longer, i)
  {
    if EndIn(trace, i) {
      var j :| 0 <= j < |trace| && trace[j].End? && trace[j].call == i;
      assert longer[j] == trace[j];
    }
    if RingIn(trace, i) {
      var j :| 0 <= j < |trace| && trace[j].Ring? && trace[j].call == i;
      assert longer[j] == trace[j];
    }
  }

  // ---------------------------------------------------------------- the results

  /** A call that was given up is displaced after that, if ever. */
  lemma DisplacedLater(steps: seq<Step>, n: nat, m: nat, i: nat)
    requires GivenUpAt(steps, n, i) && DisplacedAt(steps, m, i)
    ensures n < m
  {
    GivenUpWhileOpen(Exec(steps[..n]), steps[n], i);
    if m < n {
      AtPrefix(steps, n, m, i);
      EveryStory(steps[..n], i);
    }
  }

  /** When everything has settled, there are as many ends as rings if and only if every call that was given up was
      displaced later in the run. */
  lemma RingsMatchExactlyWhen(steps: seq<Step>)
    requires Settled(Exec(steps))
    ensures Rings(Exec(steps).trace) == Ends(Exec(steps).trace)
            <==> forall n, i :: GivenUpAt(steps, n, i) ==> exists m :: n < m && DisplacedAt(steps, m, i)
  {
    var s := Exec(steps);
    var open := OpenCalls(s.trace).value;
    EveryRingEnds(steps);
    hide Exec, Settled, GivenUpAt, DisplacedAt, OpenCalls, Rings, Ends;
    if open == map[] {
      forall n, i | GivenUpAt(steps, n, i) ensures exists m :: n < m && DisplacedAt(steps, m, i) {
        GivenUpIsDisplaced(steps, n, i);
      }
    } else {
      var id :| id in open;
      OpenNotDisplaced(steps, id);
    }
  }

  lemma GivenUpIsDisplaced(steps: seq<Step>, n: nat, i: nat)
    requires GivenUpAt(steps, n, i) && OpenCalls(Exec(steps).trace) == Some(map[])
    ensures exists m :: n < m && DisplacedAt(steps, m, i)
  {
    hide Apply, GivenUp, Displaced, StepOnCall;
    var s := Exec(steps);
    if |s.conns| <= i {
      NotBeforeItIsMade(steps, i);
    }
    EveryStory(steps, i);
    hide Exec;
    var p :| 0 <= p < |s.trace| && s.trace[p].Ring? && s.trace[p].call == i;
    if !EndIn(s.trace, i) {
      StillOpen(s.trace, p);
    }
    var m :| DisplacedAt(steps, m, i);
    DisplacedLater(steps, n, m, i);
  }

  lemma OpenNotDisplaced(steps: seq<Step>, id: bytes)
    requires id in OpenCalls(Exec(steps).trace).value && OpenCalls(Exec(steps).trace).value[id].call in Exec(steps).lost
    ensures var i := OpenCalls(Exec(steps).trace).value[id].call;
            exists n :: GivenUpAt(steps, n, i) && !exists m :: DisplacedAt(steps, m, i)
  {
    var s := Exec(steps);
    var open := OpenCalls(s.trace).value;
    var i := open[id].call;
    assert IdOk(s, open, id);
    assert Ringing(s, open, i);
    EveryStory(steps, i);
    RingsAreFresh(steps);
    RingingNotEnded(s, i);
    var n :| GivenUpAt(steps, n, i);
  }

  /** And a call that was given up gets its end from nothing else: it is reported if and only if it is displaced. */
  lemma GivenUpEndsByDisplacement(steps: seq<Step>, i: nat)
    requires i in Exec(steps).lost
    ensures EndIn(Exec(steps).trace, i) <==> exists m :: DisplacedAt(steps, m, i)
  {
    if |Exec(steps).conns| <= i {
      NotBeforeItIsMade(steps, i);
    }
    EveryStory(steps, i);
  }
}
