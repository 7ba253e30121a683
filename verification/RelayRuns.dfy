/** Over whole runs of the relay (viper/rtsp.py): when a call that ended is dialled again, towards what, what its frames
    reach, and when the grace begins. */
module RelayRuns {
  import opened Bytes
  import opened Relay

  // ---------------------------------------------------------------- redialling

  /** Episode `i` is past relaying `call`, by the wait for its pump and its idle watch, and `left` says whether the
      latter had reported the clients gone. */
  predicate Past(s: Relay, i: nat, call: nat, left: bool) {
    && i < |s.episodes|
    && match s.episodes[i].pc
       case EndingPump(l, cancelled) => l == left && !cancelled && s.episodes[i].call == Some(call)
       case EndingIdle(l, cancelled) => l == left && !cancelled && s.episodes[i].call == Some(call)
       case Closing(l) => l == left && s.log != [] && s.log[|s.log| - 1] == HangUp(call)
       case _ => false
  }

  /** At this step the wait of episode `i` comes back, which relays `call`. */
  predicate WaitEnds(s: Relay, step: Step, i: nat, call: nat) {
    step == WaitReturns(i) && At(s, i, Relaying) && WaitOver(s, i) && s.episodes[i].call == Some(call)
  }

  lemma PastBefore(s: Relay, step: Step, i: nat, call: nat, left: bool)
    requires Inv(s) && Past(Apply(s, step), i, call, left)
    ensures Past(s, i, call, left) || (WaitEnds(s, step, i, call) && left == SaidGone(s, call))
  {
    if !Enabled(s, step) {
      hide Enabled, Inv, Past;
    } else if OwnerStep(step) {
      hide Apply, Enabled, Inv, Past, WaitEnds, SaidGone;
      OwnerPast(s, step, i, call, left);
    } else if step.Frame? {
      hide FanOut, Past, Inv, WaitEnds, SaidGone;
      FramePast(s, step, i, call, left);
    } else {
      hide Inv, Enabled, OwnerStep, Drop, IdleRound, WaitEnds, SaidGone;
      SameOwners(s, step);
    }
  }

  lemma FramePast(s: Relay, step: Step, i: nat, call: nat, left: bool)
    requires Inv(s) && step.Frame? && Enabled(s, step)
    ensures !Past(FanOut(s, step.call, step.order, step.failing), i, call, left)
  {
    hide FanOut;
    NotWhilePast(s, step, i);
    hide Inv;
    FrameOnly(s, step.call, step.order, step.failing);
  }

  lemma SameOwners(s: Relay, step: Step)
    ensures step.Leaves? ==> Drop(s, step.client).episodes == s.episodes && Drop(s, step.client).log == s.log
    ensures step.IdleStarts? || step.GraceOver? ==>
              IdleRound(s, step.call).episodes == s.episodes && IdleRound(s, step.call).log == s.log
  {
  }

  lemma NotWhilePast(s: Relay, step: Step, i: nat)
    requires Inv(s) && step.Frame? && Enabled(s, step)
    ensures Live(s).Some? && s.episodes[Live(s).value].pc.Relaying?
    ensures i < |s.episodes| && !s.episodes[i].pc.Finished? ==> s.episodes[i].pc.Relaying?
  {
    assert step.call in Relayed(s);
  }

  lemma FrameOnly(s: Relay, call: nat, order: seq<nat>, failing: set<nat>)
    ensures var r := FanOut(s, call, order, failing);
            r == s.(clients := r.clients, idleSet := r.idleSet, log := r.log)
  {
    DropAllOnly(s.(log := s.log + SentTo(order, s.clients, failing, call, s.generation)),
                DeadOf(order, s.clients, failing));
  }

  lemma OwnerPast(s: Relay, step: Step, i: nat, call: nat, left: bool)
    requires Inv(s) && OwnerStep(step) && Enabled(s, step) && Past(Apply(s, step), i, call, left)
    ensures Past(s, i, call, left) || (WaitEnds(s, step, i, call) && left == SaidGone(s, call))
  {
    if step.episode == i {
      assert EpisodeOk(s.episodes[i]);
      hide Inv;
      OwnPast(s, step, i, call, left);
    } else {
      OthersStay(s, step, i);
      hide Apply, WaitEnds, SaidGone;
      assert !s.episodes[i].pc.Finished?;
      OnlyOneMoves(s, step, i);
    }
  }

  /** While one episode is unfinished, no other owner does anything. */
  lemma OnlyOneMoves(s: Relay, step: Step, i: nat)
    requires Inv(s) && OwnerStep(step) && Enabled(s, step) && step.episode != i
    requires i < |s.episodes| && !s.episodes[i].pc.Finished?
    ensures Apply(s, step) == s
  {
    assert s.episodes[step.episode].pc.Finished?;
    hide Inv;
  }

  /** Where the owner is after each of the things it does. */
  lemma PcAfter(s: Relay, i: nat, left: bool, cancelled: bool)
    requires i < |s.episodes|
    ensures var e := StopRelaying(s, i, left, cancelled).episodes[i];
            e.pc == EndingPump(left, cancelled) && e.call == s.episodes[i].call
    ensures BeginClose(s, i, left).episodes[i].pc == Closing(left)
    ensures BeginFinalClose(s, i).episodes[i].pc.FinalClosing? && Finish(s, i).episodes[i].pc.Finished?
    ensures StartDial(s, i).episodes[i].pc.Dialling? && Answers(s, i).episodes[i].pc.Relaying?
    ensures DialFails(s, i, cancelled).episodes[i].pc.Finished?
  {
  }

  lemma CutShortPc(s: Relay, i: nat)
    requires i < |s.episodes|
    ensures var pc := CutShort(s, i).episodes[i].pc;
            pc.Finished? || pc.FinalClosing? || (pc.EndingPump? && pc.cancelled)
  {
    hide OnlyEpisode, StopRelaying, BeginClose, BeginFinalClose, Finish, StartDial, Answers, DialFails;
    match s.episodes[i].pc
    case Dialling => PcAfter(s, i, false, true);
    case Relaying => PcAfter(s, i, false, true);
    case EndingPump(_, _) => PcAfter(s, i, false, true);
    case EndingIdle(_, _) => PcAfter(s, i, false, true);
    case Closing(_) => PcAfter(s, i, false, true);
    case _ =>
  }

  lemma CancelPc(s: Relay, i: nat)
    requires i < |s.episodes|
    ensures s.episodes[i].pc.Finished? ==> Cancel(s, i) == s
    ensures var pc := Cancel(s, i).episodes[i].pc;
            pc.Finished? || pc.FinalClosing? || (pc.EndingPump? && pc.cancelled)
  {
    hide CutShort;
    CutShortPc(Ask(s, i), i);
  }

  lemma OwnPast(s: Relay, step: Step, i: nat, call: nat, left: bool)
    requires i < |s.episodes| && EpisodeOk(s.episodes[i])
    requires OwnerStep(step) && Enabled(s, step) && step.episode == i && Past(Apply(s, step), i, call, left)
    ensures Past(s, i, call, left) || (WaitEnds(s, step, i, call) && left == SaidGone(s, call))
  {
    hide Apply, WaitEnds, SaidGone, EpisodeOk;
    match step
    case WaitReturns(_) => WaitPast(s, i, call, left);
    case PumpEnded(_) => PumpPast(s, i, call, left);
    case IdleEnded(_) => IdlePast(s, i, call, left);
    case IsCancelled(_) => CancelledPast(s, i, call, left);
    case IsAsked(_) => AskedPast(s, i, call, left);
    case _ => NoCall(s, step, call, left);
  }

  lemma WaitPast(s: Relay, i: nat, call: nat, left: bool)
    requires Enabled(s, WaitReturns(i)) && Past(Apply(s, WaitReturns(i)), i, call, left)
    ensures WaitEnds(s, WaitReturns(i), i, call) && left == SaidGone(s, call)
  {
    hide StopRelaying;
    PcAfter(s, i, SaidGone(s, s.episodes[i].call.value), false);
  }

  lemma PumpPast(s: Relay, i: nat, call: nat, left: bool)
    requires Enabled(s, PumpEnded(i)) && Past(Apply(s, PumpEnded(i)), i, call, left)
    ensures Past(s, i, call, left)
  {
  }

  lemma IdlePast(s: Relay, i: nat, call: nat, left: bool)
    requires Enabled(s, IdleEnded(i)) && EpisodeOk(s.episodes[i]) && Past(Apply(s, IdleEnded(i)), i, call, left)
    ensures Past(s, i, call, left)
  {
    hide BeginClose, BeginFinalClose;
    PcAfter(s, i, s.episodes[i].pc.left, false);
    HungUpOwnCall(s, i, s.episodes[i].pc.left);
  }

  lemma CancelledPast(s: Relay, i: nat, call: nat, left: bool)
    requires i < |s.episodes| && Past(Apply(s, IsCancelled(i)), i, call, left)
    ensures Past(s, i, call, left)
  {
    hide Cancel;
    CancelPc(s, i);
  }

  lemma AskedPast(s: Relay, i: nat, call: nat, left: bool)
    requires i < |s.episodes| && Past(Apply(s, IsAsked(i)), i, call, left)
    ensures Past(s, i, call, left)
  {
  }

  lemma NoCall(s: Relay, step: Step, call: nat, left: bool)
    requires Enabled(s, step)
    requires step.Starts? || step.DialReturns? || step.DialRaises? || step.Closed? || step.FinallyClosed?
    ensures !Past(Apply(s, step), step.episode, call, left)
  {
    hide Apply;
    NotClosing(s, step);
  }

  lemma NotClosing(s: Relay, step: Step)
    requires Enabled(s, step)
    requires step.Starts? || step.DialReturns? || step.DialRaises? || step.Closed? || step.FinallyClosed?
    ensures step.episode < |Apply(s, step).episodes|
    ensures var pc := Apply(s, step).episodes[step.episode].pc; pc.Dialling? || pc.Relaying? || pc.Finished?
  {
    hide StartDial, Answers, DialFails, Finish, Viewers;
    match step
    case Starts(i) => PcAfter(s, i, false, false);
    case DialReturns(i) => PcAfter(s, i, false, false);
    case DialRaises(i) => PcAfter(s, i, false, false);
    case Closed(i) => PcAfter(s, i, false, false);
    case FinallyClosed(i) => PcAfter(s, i, false, false);
  }

  lemma HungUpOwnCall(s: Relay, i: nat, left: bool)
    requires i < |s.episodes|
    ensures s.episodes[i].call.Some? ==>
              var log := BeginClose(s, i, left).log;
              log != [] && log[|log| - 1] == HangUp(s.episodes[i].call.value)
  {
  }

  lemma OthersStay(s: Relay, step: Step, i: nat)
    requires OwnerStep(step) && Enabled(s, step) && step.episode != i
    ensures |Apply(s, step).episodes| == |s.episodes|
    ensures i < |s.episodes| ==> Apply(s, step).episodes[i] == s.episodes[i]
  {
    hide StartDial, Answers, DialFails, StopRelaying, BeginClose, BeginFinalClose, Finish, Cancel, Ask;
  }

  /** At step `n` of a run the wait of episode `i` came back, which relayed `call`, and it has relayed none since. */
  ghost predicate LastWait(steps: seq<Step>, i: nat, call: nat, n: nat) {
    && n < |steps| && WaitEnds(Exec(steps[..n]), steps[n], i, call)
    && forall m :: n < m <= |steps| ==> !At(Exec(steps[..m]), i, Relaying)
  }

  lemma {:induction false} PastMeans(steps: seq<Step>, i: nat, call: nat, left: bool)
    requires Past(Exec(steps), i, call, left)
    ensures exists n: nat :: LastWait(steps, i, call, n) && left == SaidGone(Exec(steps[..n]), call)
  {
    hide Apply, Inv, WaitEnds, SaidGone;
    if steps != [] {
      var front, last := steps[..|steps| - 1], steps[|steps| - 1];
      Reachable(front);
      PastBefore(Exec(front), last, i, call, left);
      assert steps[..|steps|] == steps;
      if WaitEnds(Exec(front), last, i, call) && left == SaidGone(Exec(front), call) {
        assert LastWait(steps, i, call, |front|);
      } else {
        PastMeans(front, i, call, left);
        var n: nat :| LastWait(front, i, call, n) && left == SaidGone(Exec(front[..n]), call);
        assert front[..n] == steps[..n];
        forall m | n < m <= |steps| ensures !At(Exec(steps[..m]), i, Relaying) {
          assert m < |steps| ==> steps[..m] == front[..m];
        }
        assert LastWait(steps, i, call, n);
      }
    }
  }

  /** Somebody is watching. */
  predicate Watched(s: Relay) {
    exists c :: c in s.clients && s.clients[c]
  }

  lemma WatchedMeans(s: Relay)
    ensures Watched(s) <==> Viewers(s) != 0
  {
    if c :| c in s.clients && s.clients[c] {
      assert c in Playing(s.clients);
    }
    if Viewers(s) != 0 {
      var c :| c in Playing(s.clients);
    }
  }

  /** Over every run: when the close of a call comes back, the owner dials its own target again exactly when somebody is
      watching and the clients had not been reported gone at the moment the wait for that very call came back; and
      otherwise its episode is over, and nothing is dialled. */
  lemma RedialsExactlyWhen(steps: seq<Step>, i: nat)
    requires i < |Exec(steps).episodes| && Exec(steps).episodes[i].pc.Closing?
    ensures var s, r := Exec(steps), Exec(steps + [Closed(i)]);
            exists n: nat, call ::
              && LastWait(steps, i, call, n) && s.log != [] && s.log[|s.log| - 1] == HangUp(call)
              && if Watched(s) && !SaidGone(Exec(steps[..n]), call) then
                   r.log == s.log + [Dial(s.episodes[i].target)] && At(r, i, Dialling) && Live(r) == Some(i)
                 else r.log == s.log && At(r, i, Finished) && Live(r).None?
  {
    var s := Exec(steps);
    Reachable(steps);
    assert (steps + [Closed(i)])[..|steps|] == steps;
    hide Exec;
    OwnerIsLive(s, i);
    EndsWithHangUp(steps, i);
    PastMeans(steps, i, s.log[|s.log| - 1].call, s.episodes[i].pc.left);
    hide Inv, LastWait;
    WatchedMeans(s);
    ClosedDials(s, i);
  }

  lemma ClosedDials(s: Relay, i: nat)
    requires i < |s.episodes| && s.episodes[i].pc.Closing? && s.current == Some(i)
    ensures var r := Apply(s, Closed(i));
            if Viewers(s) != 0 && !s.episodes[i].pc.left then
              r.log == s.log + [Dial(s.episodes[i].target)] && At(r, i, Dialling) && Live(r) == Some(i)
            else r.log == s.log && At(r, i, Finished) && Live(r).None?
  {
    hide Viewers, StartDial, Finish;
    DialsAgain(s, i);
    Finishes(s, i);
  }

  lemma DialsAgain(s: Relay, i: nat)
    requires i < |s.episodes| && s.current == Some(i)
    ensures var r := StartDial(s, i);
            r.log == s.log + [Dial(s.episodes[i].target)] && At(r, i, Dialling) && Live(r) == Some(i)
  {
  }

  lemma Finishes(s: Relay, i: nat)
    requires i < |s.episodes| && s.current == Some(i)
    ensures var r := Finish(s, i); r.log == s.log && At(r, i, Finished) && Live(r).None?
  {
  }

  /** A call is being closed: the last that happened is that it was hung up. */
  predicate HungUp(s: Relay, i: nat) {
    i < |s.episodes| && s.episodes[i].pc.Closing? ==> s.log != [] && s.log[|s.log| - 1].HangUp?
  }

  lemma {:induction false} EndsWithHangUp(steps: seq<Step>, i: nat)
    ensures HungUp(Exec(steps), i)
  {
    if steps != [] {
      var front, last := steps[..|steps| - 1], steps[|steps| - 1];
      EndsWithHangUp(front, i);
      Reachable(front);
      hide Inv, Apply;
      HungUpStep(Exec(front), last, i);
    }
  }

  lemma HungUpStep(s: Relay, step: Step, i: nat)
    requires Inv(s) && HungUp(s, i)
    ensures HungUp(Apply(s, step), i)
  {
    if !Enabled(s, step) {
      hide Enabled, Inv;
    } else if OwnerStep(step) {
      hide Apply, Enabled, Inv, HungUp;
      OwnerHungUp(s, step, i);
    } else if step.Frame? {
      hide FanOut, Inv, HungUp;
      FrameHungUp(s, step, i);
    } else {
      hide Inv, Enabled, OwnerStep, Drop, IdleRound;
      SameOwners(s, step);
    }
  }

  lemma FrameHungUp(s: Relay, step: Step, i: nat)
    requires Inv(s) && step.Frame? && Enabled(s, step)
    ensures HungUp(FanOut(s, step.call, step.order, step.failing), i)
  {
    hide FanOut;
    NotWhilePast(s, step, i);
    hide Inv;
    FrameOnly(s, step.call, step.order, step.failing);
  }

  lemma OwnerHungUp(s: Relay, step: Step, i: nat)
    requires Inv(s) && HungUp(s, i) && OwnerStep(step) && Enabled(s, step)
    ensures HungUp(Apply(s, step), i)
  {
    if step.episode == i {
      assert EpisodeOk(s.episodes[i]);
      hide Inv;
      OwnHungUp(s, step);
    } else {
      OthersStay(s, step, i);
      if i < |s.episodes| && s.episodes[i].pc.Closing? {
        OnlyOneMoves(s, step, i);
      }
    }
  }

  lemma OwnHungUp(s: Relay, step: Step)
    requires OwnerStep(step) && Enabled(s, step) && HungUp(s, step.episode)
    requires EpisodeOk(s.episodes[step.episode])
    ensures HungUp(Apply(s, step), step.episode)
  {
    var i, r := step.episode, Apply(s, step);
    OwnerStaysThere(s, step);
    if r.episodes[i].pc.Closing? {
      hide Apply, HungUp, EpisodeOk;
      match step
      case IdleEnded(_) => ClosesHungUp(s, i);
      case IsCancelled(_) => CancelledHungUp(s, i);
      case IsAsked(_) => AskedHungUp(s, i);
      case WaitReturns(_) => PumpHungUp(s, step);
      case PumpEnded(_) => PumpHungUp(s, step);
      case _ => NotClosing(s, step);
    }
  }

  lemma OwnerStaysThere(s: Relay, step: Step)
    requires OwnerStep(step) && Enabled(s, step)
    ensures |Apply(s, step).episodes| == |s.episodes|
  {
    hide StopRelaying, BeginClose, BeginFinalClose, Finish, StartDial, Answers, DialFails, Cancel, Ask;
  }

  lemma ClosesHungUp(s: Relay, i: nat)
    requires Enabled(s, IdleEnded(i)) && EpisodeOk(s.episodes[i])
    ensures HungUp(Apply(s, IdleEnded(i)), i)
  {
    hide BeginClose, BeginFinalClose;
    PcAfter(s, i, s.episodes[i].pc.left, false);
    HungUpOwnCall(s, i, s.episodes[i].pc.left);
  }

  lemma CancelledHungUp(s: Relay, i: nat)
    requires i < |s.episodes| && HungUp(s, i)
    ensures HungUp(Apply(s, IsCancelled(i)), i)
  {
    hide Cancel;
    CancelPc(s, i);
  }

  lemma AskedHungUp(s: Relay, i: nat)
    requires i < |s.episodes| && HungUp(s, i)
    ensures HungUp(Apply(s, IsAsked(i)), i)
  {
  }

  lemma PumpHungUp(s: Relay, step: Step)
    requires Enabled(s, step) && (step.PumpEnded? || step.WaitReturns?)
    ensures HungUp(Apply(s, step), step.episode)
  {
    hide StopRelaying;
    if step.WaitReturns? {
      PcAfter(s, step.episode, SaidGone(s, s.episodes[step.episode].call.value), false);
    }
  }

  /** Episode `i` is there, with nothing about it or the clients changed but where its owner is, and the log. */
  predicate GotTo(s: Relay, r: Relay, i: nat, pc: Pc, log: seq<Act>) {
    && i < |s.episodes| && At(r, i, pc) && r.episodes[i].target == s.episodes[i].target
    && r.current == Some(i) && r.clients == s.clients && r.log == log
    && r.answered == s.answered && r.generation == s.generation
  }

  /** With somebody watching, a call that the panel ends is followed by another of the same episode, towards the same
      target: every wait on the way comes back by itself, and the viewers are still there. */
  lemma HangUpIsFollowed(steps: seq<Step>, i: nat)
    requires At(Exec(steps), i, Relaying) && Watched(Exec(steps))
    requires Exec(steps).episodes[i].call.Some? ==> !SaidGone(Exec(steps), Exec(steps).episodes[i].call.value)
    ensures var s := Exec(steps);
            && s.episodes[i].call.Some?
            && var call := s.episodes[i].call.value;
               var r := Exec(steps + [PumpEnds(call), WaitReturns(i), PumpEnded(i), IdleEnded(i), Closed(i),
                                      DialReturns(i)]);
            && At(r, i, Relaying) && r.episodes[i].call == Some(call + 1) && r.clients == s.clients
            && r.log == s.log + [HangUp(call), Dial(s.episodes[i].target), Answer(call + 1, call + 2)]
  {
    hide Apply, Exec, Inv, Watched, At, SaidGone;
    var s := Exec(steps);
    Reachable(steps);
    CallIsUp(s, i);
    var call := s.episodes[i].call.value;
    ExecOn(steps, [PumpEnds(call), WaitReturns(i), PumpEnded(i), IdleEnded(i), Closed(i), DialReturns(i)]);
    SixSteps(s, PumpEnds(call), WaitReturns(i), PumpEnded(i), IdleEnded(i), Closed(i), DialReturns(i));
    PanelEnds(s, i, call);
    DialsForViewers(s, Apply(Apply(Apply(Apply(s, PumpEnds(call)), WaitReturns(i)), PumpEnded(i)), IdleEnded(i)), i,
                    call);
  }

  lemma CallIsUp(s: Relay, i: nat)
    requires Inv(s) && At(s, i, Relaying)
    ensures s.current == Some(i) && s.episodes[i].call.Some?
    ensures var call := s.episodes[i].call.value;
            call in s.pumps && call in s.idles && s.answered == call + 1 && s.generation == call + 1
  {
    OwnerIsLive(s, i);
    assert s.episodes[i].call.value in Relayed(s);
  }

  lemma PanelEnds(s: Relay, i: nat, call: nat)
    requires At(s, i, Relaying) && s.current == Some(i) && s.episodes[i].call == Some(call)
    requires call in s.pumps && !SaidGone(s, call)
    ensures var r := Apply(Apply(Apply(Apply(s, PumpEnds(call)), WaitReturns(i)), PumpEnded(i)), IdleEnded(i));
            GotTo(s, r, i, Closing(false), s.log + [HangUp(call)])
  {
    var over := Apply(s, PumpEnds(call));
    assert over == s.(pumps := s.pumps[call := true]);
    WaitComesBack(over, i, call);
    var ending := Apply(over, WaitReturns(i));
    hide StopRelaying, BeginClose;
    assert GotTo(s, ending, i, EndingPump(false, false), s.log) && ending.episodes[i].call == Some(call);
    var ended := Apply(ending, PumpEnded(i));
    assert GotTo(s, ended, i, EndingIdle(false, false), s.log) && ended.episodes[i].call == Some(call);
    CloseBegins(ended, i, call);
  }

  lemma WaitComesBack(s: Relay, i: nat, call: nat)
    requires At(s, i, Relaying) && s.current == Some(i) && s.episodes[i].call == Some(call)
    requires call in s.pumps && s.pumps[call] && !SaidGone(s, call)
    ensures var r := Apply(s, WaitReturns(i));
            GotTo(s, r, i, EndingPump(false, false), s.log) && r.episodes[i].call == Some(call)
  {
    hide StopRelaying;
    assert Apply(s, WaitReturns(i)) == StopRelaying(s, i, false, false);
    Stopped(s, i);
  }

  lemma Stopped(s: Relay, i: nat)
    requires i < |s.episodes| && s.current == Some(i)
    ensures var r := StopRelaying(s, i, false, false);
            GotTo(s, r, i, EndingPump(false, false), s.log) && r.episodes[i].call == s.episodes[i].call
  {
  }

  lemma CloseBegins(s: Relay, i: nat, call: nat)
    requires At(s, i, EndingIdle(false, false)) && s.current == Some(i) && s.episodes[i].call == Some(call)
    ensures GotTo(s, Apply(s, IdleEnded(i)), i, Closing(false), s.log + [HangUp(call)])
  {
  }

  lemma DialsForViewers(s: Relay, closing: Relay, i: nat, call: nat)
    requires GotTo(s, closing, i, Closing(false), s.log + [HangUp(call)]) && Watched(s)
    requires s.answered == call + 1 && s.generation == call + 1
    ensures var r := Apply(Apply(closing, Closed(i)), DialReturns(i));
            && At(r, i, Relaying) && r.episodes[i].call == Some(call + 1) && r.clients == s.clients
            && r.log == s.log + [HangUp(call), Dial(s.episodes[i].target), Answer(call + 1, call + 2)]
  {
    WatchedMeans(s);
    var dialling := Apply(closing, Closed(i));
    ViewersDial(closing, i);
    assert dialling.log == s.log + [HangUp(call), Dial(s.episodes[i].target)];
    Answered(dialling, i);
  }

  lemma ViewersDial(s: Relay, i: nat)
    requires At(s, i, Closing(false)) && s.current == Some(i) && Viewers(s) != 0
    ensures GotTo(s, Apply(s, Closed(i)), i, Dialling, s.log + [Dial(s.episodes[i].target)])
  {
    hide Viewers;
  }

  lemma Answered(s: Relay, i: nat)
    requires At(s, i, Dialling)
    ensures var r := Apply(s, DialReturns(i));
            && At(r, i, Relaying) && r.episodes[i].call == Some(s.answered) && r.clients == s.clients
            && r.log == s.log + [Answer(s.answered, s.generation + 1)]
  {
  }

  // ---------------------------------------------------------------- what is dialled

  /** What was added to the log dials nothing but this target. */
  predicate DialsOnly(before: seq<Act>, after: seq<Act>, target: string) {
    && before <= after
    && forall q :: |before| <= q < |after| && after[q].Dial? ==> after[q].target == target
  }

  /** The episodes of before are there, with their targets. */
  predicate KeepsTargets(s: Relay, r: Relay) {
    && |s.episodes| <= |r.episodes|
    && forall i :: 0 <= i < |s.episodes| ==> r.episodes[i].target == s.episodes[i].target
  }

  lemma OwnOnly(s: Relay, r: Relay, i: nat)
    requires i < |s.episodes| && OnlyEpisode(s, r, i) && r.episodes[i].target == s.episodes[i].target
    ensures KeepsTargets(s, r) && |r.episodes| == |s.episodes|
  {
  }

  /** The event is left alone, and no watch but a new one is set going. */
  predicate LeavesWatches(s: Relay, r: Relay) {
    && r.idleSet == s.idleSet
    && forall call :: call in r.idles ==>
         r.idles[call].IdleNotStarted? || (call in s.idles && r.idles[call] == s.idles[call])
  }

  /** Whatever an owner does, it dials only its own target, and it does nothing to the idle watches but cancel them and
      start new ones. */
  predicate Own(s: Relay, r: Relay, i: nat)
    requires i < |s.episodes|
  {
    && |r.episodes| == |s.episodes| && r.episodes[i].target == s.episodes[i].target
    && DialsOnly(s.log, r.log, s.episodes[i].target) && LeavesWatches(s, r) && r.clients == s.clients
  }

  lemma OwnsAfter(s: Relay, i: nat, left: bool, cancelled: bool)
    requires i < |s.episodes|
    ensures Own(s, StopRelaying(s, i, left, cancelled), i) && Own(s, BeginClose(s, i, left), i)
    ensures Own(s, BeginFinalClose(s, i), i) && Own(s, Finish(s, i), i) && Own(s, StartDial(s, i), i)
    ensures Own(s, Answers(s, i), i) && Own(s, DialFails(s, i, cancelled), i)
  {
    hide Own, StopRelaying, BeginClose, BeginFinalClose, Finish, StartDial, Answers, DialFails;
    StopOwns(s, i, left, cancelled);
    CloseOwns(s, i, left);
    AnswerOwns(s, i, cancelled);
  }

  lemma StopOwns(s: Relay, i: nat, left: bool, cancelled: bool)
    requires i < |s.episodes|
    ensures Own(s, StopRelaying(s, i, left, cancelled), i)
  {
  }

  lemma CloseOwns(s: Relay, i: nat, left: bool)
    requires i < |s.episodes|
    ensures Own(s, BeginClose(s, i, left), i) && Own(s, BeginFinalClose(s, i), i) && Own(s, Finish(s, i), i)
  {
  }

  lemma AnswerOwns(s: Relay, i: nat, cancelled: bool)
    requires i < |s.episodes|
    ensures Own(s, StartDial(s, i), i) && Own(s, Answers(s, i), i) && Own(s, DialFails(s, i, cancelled), i)
  {
  }

  lemma CancelOwns(s: Relay, i: nat)
    requires i < |s.episodes|
    ensures Own(s, Cancel(s, i), i)
  {
    hide StopRelaying, BeginFinalClose, Finish, DialFails, OnlyEpisode, Own;
    if !s.episodes[i].pc.Finished? {
      OwnsAfter(Ask(s, i), i, false, true);
      EndsOwn(Ask(s, i), i);
      assert Own(Ask(s, i), CutShort(Ask(s, i), i), i);
      AskOwns(s, CutShort(Ask(s, i), i), i);
    } else {
      EndsOwn(s, i);
    }
  }

  lemma EndsOwn(s: Relay, i: nat)
    requires i < |s.episodes|
    ensures Own(s, s, i) && Own(s, With(s, i, s.episodes[i].(pc := Finished)), i) && Own(s, Ask(s, i), i)
  {
  }

  lemma AskOwns(s: Relay, r: Relay, i: nat)
    requires i < |s.episodes| && Own(Ask(s, i), r, i)
    ensures Own(s, r, i)
  {
  }

  lemma OwnerOwns(s: Relay, step: Step)
    requires OwnerStep(step) && Enabled(s, step)
    ensures Own(s, Apply(s, step), step.episode)
  {
    hide Own, Apply;
    match step
    case WaitReturns(i) => WaitOwns(s, i);
    case PumpEnded(i) => PumpOwns(s, i);
    case IdleEnded(i) => IdleOwns(s, i);
    case IsCancelled(i) => CancelledOwns(s, i);
    case IsAsked(i) => CancelledOwns(s, i);
    case _ => DialOwns(s, step);
  }

  lemma WaitOwns(s: Relay, i: nat)
    requires Enabled(s, WaitReturns(i))
    ensures Own(s, Apply(s, WaitReturns(i)), i)
  {
    hide Own, StopRelaying;
    OwnsAfter(s, i, SaidGone(s, s.episodes[i].call.value), false);
  }

  lemma IdleOwns(s: Relay, i: nat)
    requires Enabled(s, IdleEnded(i))
    ensures Own(s, Apply(s, IdleEnded(i)), i)
  {
    hide Own, BeginClose, BeginFinalClose;
    OwnsAfter(s, i, s.episodes[i].pc.left, false);
  }

  lemma CancelledOwns(s: Relay, i: nat)
    requires i < |s.episodes|
    ensures Own(s, Apply(s, IsCancelled(i)), i) && Own(s, Apply(s, IsAsked(i)), i)
  {
    hide Own, Cancel, Ask;
    CancelOwns(s, i);
    EndsOwn(s, i);
  }

  lemma DialOwns(s: Relay, step: Step)
    requires Enabled(s, step)
    requires step.Starts? || step.DialReturns? || step.DialRaises? || step.Closed? || step.FinallyClosed?
    ensures Own(s, Apply(s, step), step.episode)
  {
    hide Own, StartDial, Answers, DialFails, Finish, Viewers;
    OwnsAfter(s, step.episode, false, false);
  }

  lemma PumpOwns(s: Relay, i: nat)
    requires Enabled(s, PumpEnded(i))
    ensures Own(s, Apply(s, PumpEnded(i)), i)
  {
  }

  lemma {:induction false} FramesDialNothing(order: seq<nat>, clients: map<nat, bool>, failing: set<nat>, call: nat,
                                             generation: nat)
    ensures forall act :: act in SentTo(order, clients, failing, call, generation) ==> act.Sent?
    decreases |order|
  {
    if order != [] {
      FramesDialNothing(order[1..], clients, failing, call, generation);
    }
  }

  /** Of `r`, the episodes are those of `s`, or one more for what this step asks for; and what it dials is for one. */
  ghost predicate AddsOnly(s: Relay, r: Relay, step: Step) {
    && KeepsTargets(s, r) && s.log <= r.log
    && (forall i :: |s.episodes| <= i < |r.episodes| ==> step == Asks(r.episodes[i].target))
    && (forall q :: |s.log| <= q < |r.log| && r.log[q].Dial? ==>
          exists i :: 0 <= i < |s.episodes| && r.log[q].target == s.episodes[i].target)
  }

  lemma StepDials(s: Relay, step: Step)
    ensures AddsOnly(s, Apply(s, step), step)
  {
    if !Enabled(s, step) {
      hide Enabled;
    } else if OwnerStep(step) {
      hide Apply, AddsOnly, Enabled;
      OwnerDials(s, step);
    } else if step.Frame? {
      hide FanOut, AddsOnly;
      FrameDials(s, step);
    } else {
      hide Enabled, OwnerStep, Drop, IdleRound;
      SameOwners(s, step);
    }
  }

  lemma OwnerDials(s: Relay, step: Step)
    requires OwnerStep(step) && Enabled(s, step)
    ensures AddsOnly(s, Apply(s, step), step)
  {
    hide Apply;
    OwnerOwns(s, step);
    OthersKeep(s, step);
    assert forall q :: |s.log| <= q < |Apply(s, step).log| && Apply(s, step).log[q].Dial? ==>
        Apply(s, step).log[q].target == s.episodes[step.episode].target;
  }

  lemma FrameDials(s: Relay, step: Step)
    requires step.Frame?
    ensures AddsOnly(s, FanOut(s, step.call, step.order, step.failing), step)
  {
    hide FanOut;
    FrameOnly(s, step.call, step.order, step.failing);
    FrameLogs(s, step.call, step.order, step.failing);
    FramesDialNothing(step.order, s.clients, step.failing, step.call, s.generation);
    var r := FanOut(s, step.call, step.order, step.failing);
    assert forall q :: |s.log| <= q < |r.log| ==>
        r.log[q] in SentTo(step.order, s.clients, step.failing, step.call, s.generation);
  }

  lemma OthersKeep(s: Relay, step: Step)
    requires OwnerStep(step) && Enabled(s, step) && Own(s, Apply(s, step), step.episode)
    ensures KeepsTargets(s, Apply(s, step))
  {
    hide Apply;
    forall i | 0 <= i < |s.episodes| ensures Apply(s, step).episodes[i].target == s.episodes[i].target {
      if i != step.episode {
        OthersStay(s, step, i);
      }
    }
  }

  lemma FrameLogs(s: Relay, call: nat, order: seq<nat>, failing: set<nat>)
    ensures FanOut(s, call, order, failing).log == s.log + SentTo(order, s.clients, failing, call, s.generation)
  {
    DropAllOnly(s.(log := s.log + SentTo(order, s.clients, failing, call, s.generation)),
                DeadOf(order, s.clients, failing));
  }

  ghost predicate Asked(steps: seq<Step>, target: string) {
    exists n :: 0 <= n < |steps| && steps[n] == Asks(target)
  }

  ghost predicate AllAsked(steps: seq<Step>, s: Relay) {
    && (forall i :: 0 <= i < |s.episodes| ==> Asked(steps, s.episodes[i].target))
    && (forall q :: 0 <= q < |s.log| && s.log[q].Dial? ==> Asked(steps, s.log[q].target))
  }

  lemma AskedOn(front: seq<Step>, last: Step, s: Relay, r: Relay)
    requires AllAsked(front, s) && AddsOnly(s, r, last)
    ensures AllAsked(front + [last], r)
  {
    forall target | Asked(front, target) || last == Asks(target) ensures Asked(front + [last], target) {
      if last == Asks(target) {
        assert (front + [last])[|front|] == Asks(target);
      } else {
        var n :| 0 <= n < |front| && front[n] == Asks(target);
        assert (front + [last])[n] == Asks(target);
      }
    }
    forall q | 0 <= q < |r.log| && r.log[q].Dial? ensures Asked(front, r.log[q].target) {
      if q < |s.log| {
        assert r.log[q] == s.log[q];
      } else {
        var i :| 0 <= i < |s.episodes| && r.log[q].target == s.episodes[i].target;
      }
    }
  }

  /** Over every run, nothing is dialled, and no episode is for anything, but what a request asked for. */
  lemma {:induction false} DialsWhatWasAsked(steps: seq<Step>)
    ensures AllAsked(steps, Exec(steps))
  {
    if steps != [] {
      var front, last := steps[..|steps| - 1], steps[|steps| - 1];
      DialsWhatWasAsked(front);
      hide Apply, AddsOnly, AllAsked;
      StepDials(Exec(front), last);
      AskedOn(front, last, Exec(front), Exec(steps));
      assert steps == front + [last];
    }
  }
}
