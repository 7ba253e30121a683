/** A relay whose owner is cancelled (viper/rtsp.py, abandon_call) and the call it then tries to close (viper/call.py):
    what the two come to together. */
module Abandon {
  import opened Bytes
  import R = Relay
  import V = Video

  predicate ClosingNow(e: R.Episode) {
    e.pc.Closing? || e.pc.FinalClosing?
  }

  // ---------------------------------------------------------------- the call being closed

  /** The last thing on the panel's line was the beginning of the close of the latest call. */
  predicate LastHungUp(s: R.Relay) {
    s.answered > 0 && s.log != [] && s.log[|s.log| - 1] == R.HangUp(s.answered - 1)
  }

  /** So it is as long as an owner is closing a call. */
  predicate HungUpWhileClosing(s: R.Relay) {
    R.Live(s).Some? && ClosingNow(s.episodes[R.Live(s).value]) ==> LastHungUp(s)
  }

  /** What the owner of episode `i` makes of it in one step. */
  predicate StaysHungUp(s: R.Relay, r: R.Relay, i: nat)
    requires i < |s.episodes| == |r.episodes|
  {
    (ClosingNow(r.episodes[i]) ==> LastHungUp(r)) && (r.current == s.current || r.current == None)
  }

  lemma MoveHangsUp(s: R.Relay, i: nat, left: bool, cancelled: bool)
    requires i < |s.episodes|
    ensures StaysHungUp(s, R.StartDial(s, i), i) && StaysHungUp(s, R.Answers(s, i), i)
    ensures StaysHungUp(s, R.StopRelaying(s, i, left, cancelled), i)
  {
    hide R.CallOf, LastHungUp;
  }

  lemma EndHangsUp(s: R.Relay, i: nat, left: bool, cancelled: bool)
    requires i < |s.episodes|
    ensures StaysHungUp(s, R.Finish(s, i), i) && StaysHungUp(s, R.DialFails(s, i, cancelled), i)
    ensures StaysHungUp(s, R.CloseDone(s, i, left), i)
  {
    hide R.Viewers, LastHungUp;
  }

  lemma CloseHangsUp(s: R.Relay, i: nat, left: bool)
    requires i < |s.episodes| && s.answered > 0 && s.episodes[i].call == Some(s.answered - 1)
    ensures StaysHungUp(s, R.BeginClose(s, i, left), i) && StaysHungUp(s, R.BeginFinalClose(s, i), i)
  {
  }

  lemma AskHangsUp(s: R.Relay, i: nat)
    requires i < |s.episodes| && (ClosingNow(s.episodes[i]) ==> LastHungUp(s))
    ensures StaysHungUp(s, R.Ask(s, i), i)
  {
  }

  lemma CutHangsUp(s: R.Relay, i: nat)
    requires i < |s.episodes|
    requires R.LineOf(s.episodes[i]).Up? ==> s.answered > 0 && s.episodes[i].call == Some(s.answered - 1)
    requires R.EpisodeOk(s.episodes[i])
    ensures StaysHungUp(s, R.CutShort(s, i), i)
  {
    hide R.StartDial, R.Answers, R.DialFails, R.StopRelaying, R.BeginClose, R.BeginFinalClose, R.CloseDone, R.Finish;
    match s.episodes[i].pc
    case Dialling => EndHangsUp(s, i, false, true);
    case Relaying => MoveHangsUp(s, i, false, true);
    case EndingPump(_, _) => CloseHangsUp(s, i, false);
    case EndingIdle(_, _) => CloseHangsUp(s, i, false);
    case Closing(_) => EndHangsUp(s, i, false, true);
    case _ =>
  }

  lemma LatestIsUp(s: R.Relay, i: nat)
    requires R.Inv(s) && i < |s.episodes| && !s.episodes[i].pc.Finished?
    ensures s.current == Some(i) && R.Live(s) == Some(i) && R.EpisodeOk(s.episodes[i])
    ensures R.LineOf(s.episodes[i]).Up? ==> s.answered > 0 && s.episodes[i].call == Some(s.answered - 1)
  {
    R.OwnerIsLive(s, i);
  }

  lemma OwnerHangsUp(s: R.Relay, step: R.Step)
    requires R.Inv(s) && HungUpWhileClosing(s) && R.Enabled(s, step) && R.OwnerStep(step)
    requires !s.episodes[step.episode].pc.Finished?
    ensures |R.Apply(s, step).episodes| == |s.episodes| && StaysHungUp(s, R.Apply(s, step), step.episode)
  {
    hide R.StartDial, R.Answers, R.DialFails, R.StopRelaying, R.BeginClose, R.BeginFinalClose, R.CloseDone, R.Finish,
         R.CutShort, R.Ask, R.Inv, StaysHungUp, LastHungUp;
    var i := step.episode;
    var e := s.episodes[i];
    LatestIsUp(s, i);
    match step
    case Starts(_) => MoveHangsUp(s, i, false, false);
    case DialReturns(_) => MoveHangsUp(s, i, false, false);
    case DialRaises(_) => EndHangsUp(s, i, false, false);
    case WaitReturns(_) =>
      var call := e.call.value;
      MoveHangsUp(s, i, call in s.idles && s.idles[call].Returned?, false);
    case PumpEnded(_) => PumpHangsUp(s, i);
    case IdleEnded(_) => CloseHangsUp(s, i, e.pc.left);
    case Closed(_) => EndHangsUp(s, i, e.pc.left, false);
    case FinallyClosed(_) => EndHangsUp(s, i, false, false);
    case IsCancelled(_) => CancelHangsUp(s, i);
    case IsAsked(_) => AskHangsUp(s, i);
  }

  lemma PumpHangsUp(s: R.Relay, i: nat)
    requires i < |s.episodes| && s.episodes[i].pc.EndingPump?
    ensures StaysHungUp(s, R.Apply(s, R.PumpEnded(i)), i)
  {
    hide LastHungUp;
  }

  lemma CancelHangsUp(s: R.Relay, i: nat)
    requires R.Inv(s) && i < |s.episodes| && !s.episodes[i].pc.Finished?
    ensures StaysHungUp(s, R.Cancel(s, i), i)
  {
    hide R.CutShort, R.Inv, LastHungUp;
    R.AskKeeps(s, i);
    LatestIsUp(R.Ask(s, i), i);
    CutHangsUp(R.Ask(s, i), i);
  }

  lemma StepHangsUp(s: R.Relay, step: R.Step)
    requires R.Inv(s) && HungUpWhileClosing(s)
    ensures HungUpWhileClosing(R.Apply(s, step))
  {
    hide R.StartDial, R.Answers, R.DialFails, R.StopRelaying, R.BeginClose, R.BeginFinalClose, R.CloseDone, R.Finish,
         R.CutShort, R.Ask, R.Inv, LastHungUp, StaysHungUp, HungUpWhileClosing;
    if R.Enabled(s, step) {
      if !R.OwnerStep(step) {
        OthersHangUpNothing(s, step);
      } else if !s.episodes[step.episode].pc.Finished? {
        LatestIsUp(s, step.episode);
        OwnerHangsUp(s, step);
        HangsUpStill(s, R.Apply(s, step), step.episode);
      }
    }
  }

  lemma HangsUpStill(s: R.Relay, r: R.Relay, i: nat)
    requires i < |s.episodes| == |r.episodes| && s.current == Some(i) && StaysHungUp(s, r, i)
    ensures HungUpWhileClosing(r)
  {
    hide LastHungUp;
  }

  lemma OthersHangUpNothing(s: R.Relay, step: R.Step)
    requires R.Inv(s) && HungUpWhileClosing(s) && R.Enabled(s, step) && !R.OwnerStep(step)
    ensures HungUpWhileClosing(R.Apply(s, step))
  {
    hide R.SentTo, R.DeadOf, R.DropAll, R.Enumerates, R.WaitOver, R.HangUpOf, R.Viewers, R.LineAfter;
    if step.Frame? {
      assert step.call in R.Relayed(s);
      R.DropAllOnly(s.(log := s.log + R.SentTo(step.order, s.clients, step.failing, step.call, s.generation)),
                    R.DeadOf(step.order, s.clients, step.failing));
    }
  }

  lemma {:induction false} AlwaysHungUp(steps: seq<R.Step>)
    ensures HungUpWhileClosing(R.Exec(steps))
  {
    if steps != [] {
      AlwaysHungUp(steps[..|steps| - 1]);
      R.Reachable(steps[..|steps| - 1]);
      StepHangsUp(R.Exec(steps[..|steps| - 1]), steps[|steps| - 1]);
    }
  }

  // ---------------------------------------------------------------- the results

  /** When an owner that closes a call may have been cancelled: before, while the task numbered `from` is being ended,
      or (3) not before all three have ended. */
  predicate AskedAt(e: R.Episode, from: nat) {
    from <= 3 && (e.cancelling ==> from == 0)
  }

  /** The close of a call whose three tasks end like this. */
  function CloseBy(t: V.Todo, link: V.Link, ends: seq<V.TaskEnd>, from: nat, script: seq<V.Await>): V.Closing
    requires |ends| == 3
  {
    V.RunClose(t, link, V.TaskAwaits(ends, from) + script)
  }

  /** Whenever an owner closes a call whose tasks have not been ended yet: the RELEASE is tried unless the owner has
      been cancelled, before or while it ends them, and a task that was still to end was running; and then nothing at
      all is done. The owner that closes in the outer `finally` has always been cancelled before. */
  lemma CloseStopsExactlyWhen(steps: seq<R.Step>, i: nat, t: V.Todo, link: V.Link, ends: seq<V.TaskEnd>, from: nat,
                              script: seq<V.Await>)
    requires i < |R.Exec(steps).episodes| && ClosingNow(R.Exec(steps).episodes[i])
    requires AskedAt(R.Exec(steps).episodes[i], from) && t.tasks && t.release && |ends| == 3
    ensures var run := CloseBy(t, link, ends, from, script);
            && ((exists sent :: V.TriedRelease(sent) in run.acts) <==> !V.Caught(ends, from))
            && (V.Caught(ends, from) ==> run == V.Closing(t, [], V.CutShort))
            && (R.Exec(steps).episodes[i].pc.FinalClosing? ==>
                  from == 0 && (V.Caught(ends, from) <==> V.ByCancellation in ends))
  {
    R.Reachable(steps);
    assert R.EpisodeOk(R.Exec(steps).episodes[i]);
    hide R.Exec, V.RunClose, V.SendRelease;
    V.CancelledOwnerCannotClose(t, link, ends, from, script);
  }

  /** A call whose close has stopped like that is left up at the panel, whichever close it was. The owner is finished by
      that, the next request dials although the panel was never told, and whatever happens after that no other close of
      the call begins. */
  lemma UntoldCallIsLeftUp(steps: seq<R.Step>, i: nat, target: string, t: V.Todo, link: V.Link,
                           ends: seq<V.TaskEnd>, from: nat, script: seq<V.Await>, more: seq<R.Step>)
    requires i < |R.Exec(steps).episodes| && ClosingNow(R.Exec(steps).episodes[i])
    requires AskedAt(R.Exec(steps).episodes[i], from) && t.tasks && |ends| == 3 && V.Caught(ends, from)
    ensures var s, again := R.Exec(steps), [R.IsCancelled(i), R.Asks(target), R.Starts(|R.Exec(steps).episodes|)];
            && CloseBy(t, link, ends, from, script) == V.Closing(t, [], V.CutShort)
            && LastHungUp(s) && R.At(R.Apply(s, R.IsCancelled(i)), i, R.Finished)
            && R.Exec(steps + again).log == s.log + [R.Dial(target)]
            && var log := R.Exec(steps + again + more).log;
               forall n :: |s.log| <= n < |log| ==> log[n] != R.HangUp(s.answered - 1)
  {
    var s, again := R.Exec(steps), [R.IsCancelled(i), R.Asks(target), R.Starts(|R.Exec(steps).episodes|)];
    R.Reachable(steps);
    AlwaysHungUp(steps);
    LatestIsUp(s, i);
    R.ExecOn(steps, again);
    DialsAnew(s, i, target);
    V.CancelledOwnerCannotClose(t, link, ends, from, script);
    hide *;
    EndedForGood(steps + again, more, s, target);
  }

  lemma EndedForGood(steps: seq<R.Step>, more: seq<R.Step>, s: R.Relay, target: string)
    requires LastHungUp(s) && R.Exec(steps).log == s.log + [R.Dial(target)]
    ensures var log := R.Exec(steps + more).log;
            forall n :: |s.log| <= n < |log| ==> log[n] != R.HangUp(s.answered - 1)
  {
    hide R.Exec;
    assert R.Exec(steps).log[|s.log| - 1] == R.HangUp(s.answered - 1);
    NoSecondClose(steps, more, |s.log| - 1, s.answered - 1);
  }

  /** What `abandon_call` sets off at a relayed call whose pump and idle watch end quietly: its close begins, is cut
      short, and the owner is done. */
  function Abandoned(i: nat): seq<R.Step> {
    [R.IsCancelled(i), R.PumpEnded(i), R.IdleEnded(i)]
  }

  /** So abandoning a relayed call one of whose tasks is still running leaves it up at the panel. */
  lemma AbandonedCallIsLeftUp(steps: seq<R.Step>, i: nat, target: string, t: V.Todo, link: V.Link,
                              ends: seq<V.TaskEnd>, script: seq<V.Await>, more: seq<R.Step>)
    requires R.At(R.Exec(steps), i, R.Relaying) && t.tasks && |ends| == 3 && V.ByCancellation in ends
    ensures var s, closing := R.Exec(steps), R.Exec(steps + Abandoned(i));
            && R.At(closing, i, R.FinalClosing) && s.episodes[i].call.Some?
            && CloseBy(t, link, ends, 0, script) == V.Closing(t, [], V.CutShort)
            && var call, again := s.episodes[i].call.value, [R.IsCancelled(i), R.Asks(target), R.Starts(|s.episodes|)];
               && R.Exec(steps + Abandoned(i) + again).log == s.log + [R.HangUp(call), R.Dial(target)]
               && var log := R.Exec(steps + Abandoned(i) + again + more).log;
                  forall n :: |s.log| < n < |log| ==> log[n] != R.HangUp(call)
  {
    var s, closing := R.Exec(steps), steps + Abandoned(i);
    var again := [R.IsCancelled(i), R.Asks(target), R.Starts(|s.episodes|)];
    R.Reachable(steps);
    R.OwnerIsLive(s, i);
    assert R.EpisodeOk(s.episodes[i]);
    var call := s.episodes[i].call.value;
    R.ExecOn(steps, Abandoned(i));
    R.ExecOn(closing, again);
    BeginsToClose(s, i, call);
    DialsAnew(R.Exec(closing), i, target);
    V.CancelledOwnerCannotClose(t, link, ends, 0, script);
    assert V.Caught(ends, 0);
    hide *;
    NoSecondClose(closing + again, more, |s.log|, call);
  }

  /** And it is enough that the owner is cancelled while it closes a call that has ended by itself: a run in which it
      gets to that close without having been cancelled. */
  lemma ClosingUnasked(target: string)
    ensures var s := R.Exec([R.Asks(target), R.Starts(0), R.DialReturns(0), R.PumpEnds(0), R.WaitReturns(0),
                             R.PumpEnded(0), R.IdleEnded(0)]);
            && R.At(s, 0, R.Closing(false)) && !s.episodes[0].cancelling
            && forall from: nat :: from <= 3 ==> AskedAt(s.episodes[0], from)
  {
    var start := [R.Asks(target), R.Starts(0), R.DialReturns(0)];
    var rest := [R.PumpEnds(0), R.WaitReturns(0), R.PumpEnded(0), R.IdleEnded(0)];
    assert start + rest == [R.Asks(target), R.Starts(0), R.DialReturns(0), R.PumpEnds(0), R.WaitReturns(0),
                            R.PumpEnded(0), R.IdleEnded(0)];
    R.OneRelayed(target);
    R.ExecOn(start, rest);
    var s := R.Exec(start);
    R.RunFirst(s, R.PumpEnds(0), rest[1..]);
    assert [R.PumpEnds(0)] + rest[1..] == rest;
    hide R.Exec;
    EndsByItself(s);
  }

  lemma EndsByItself(s: R.Relay)
    requires R.At(s, 0, R.Relaying) && s.episodes[0].call == Some(0) && !s.episodes[0].cancelling
    requires s.pumps == map[0 := false] && s.idles == map[0 := R.IdleNotStarted]
    ensures var end := R.Run(R.Apply(s, R.PumpEnds(0)), [R.WaitReturns(0), R.PumpEnded(0), R.IdleEnded(0)]);
            R.At(end, 0, R.Closing(false)) && !end.episodes[0].cancelling
  {
    hide R.Run;
    var over := s.(pumps := map[0 := true]);
    assert R.Apply(s, R.PumpEnds(0)) == over;
    ThreeSteps(over, R.WaitReturns(0), R.PumpEnded(0), R.IdleEnded(0));
    WaitComesBack(over);
    hide R.Apply;
    ClosesUnasked(R.Apply(over, R.WaitReturns(0)));
  }

  lemma WaitComesBack(s: R.Relay)
    requires R.At(s, 0, R.Relaying) && s.episodes[0].call == Some(0) && !s.episodes[0].cancelling
    requires s.pumps == map[0 := true] && s.idles == map[0 := R.IdleNotStarted]
    ensures var ending := R.Apply(s, R.WaitReturns(0));
            R.At(ending, 0, R.EndingPump(false, false)) && !ending.episodes[0].cancelling
  {
    hide R.CallOf;
    assert R.Apply(s, R.WaitReturns(0)) == R.StopRelaying(s, 0, false, false);
  }

  lemma ClosesUnasked(s: R.Relay)
    requires R.At(s, 0, R.EndingPump(false, false)) && !s.episodes[0].cancelling
    ensures var end := R.Apply(R.Apply(s, R.PumpEnded(0)), R.IdleEnded(0));
            R.At(end, 0, R.Closing(false)) && !end.episodes[0].cancelling
  {
    hide R.HangUpOf;
    var ended := R.With(s, 0, s.episodes[0].(pc := R.EndingIdle(false, false)));
    assert R.Apply(s, R.PumpEnded(0)) == ended;
    assert R.Apply(ended, R.IdleEnded(0)) == R.BeginClose(ended, 0, false);
  }

  lemma BeginsToClose(s: R.Relay, i: nat, call: nat)
    requires R.At(s, i, R.Relaying) && s.current == Some(i) && s.episodes[i].call == Some(call)
    ensures var closing := R.Run(s, Abandoned(i));
            && R.At(closing, i, R.FinalClosing) && closing.current == Some(i) && |closing.episodes| == |s.episodes|
            && closing.log == s.log + [R.HangUp(call)]
  {
    var ending := R.Apply(s, R.IsCancelled(i));
    var ended := R.Apply(ending, R.PumpEnded(i));
    ThreeSteps(s, R.IsCancelled(i), R.PumpEnded(i), R.IdleEnded(i));
    CancelRelaying(s, i);
    assert ended == R.With(ending, i, ending.episodes[i].(pc := R.EndingIdle(false, true)));
    EndsCancelled(ended, i, call);
  }

  lemma CancelRelaying(s: R.Relay, i: nat)
    requires R.At(s, i, R.Relaying)
    ensures var s' := R.Apply(s, R.IsCancelled(i));
            && R.OnlyEpisode(s, s', i) && R.At(s', i, R.EndingPump(false, true))
            && s'.episodes[i].call == s.episodes[i].call && s'.log == s.log && s'.current == s.current
  {
  }

  lemma EndsCancelled(s: R.Relay, i: nat, call: nat)
    requires R.At(s, i, R.EndingIdle(false, true)) && s.episodes[i].call == Some(call)
    ensures var s' := R.Apply(s, R.IdleEnded(i));
            && R.OnlyEpisode(s, s', i) && R.At(s', i, R.FinalClosing) && s'.current == s.current
            && s'.log == s.log + [R.HangUp(call)]
  {
  }

  lemma DialsAnew(s: R.Relay, i: nat, target: string)
    requires i < |s.episodes| && ClosingNow(s.episodes[i]) && s.current == Some(i)
    ensures R.At(R.Apply(s, R.IsCancelled(i)), i, R.Finished)
    ensures R.Run(s, [R.IsCancelled(i), R.Asks(target), R.Starts(|s.episodes|)]).log == s.log + [R.Dial(target)]
  {
    var gone := R.Apply(s, R.IsCancelled(i));
    ThreeSteps(s, R.IsCancelled(i), R.Asks(target), R.Starts(|s.episodes|));
    CloseCut(s, i);
    hide R.Apply, R.Run;
    AsksAnew(gone, target);
  }

  lemma CloseCut(s: R.Relay, i: nat)
    requires i < |s.episodes| && ClosingNow(s.episodes[i]) && s.current == Some(i)
    ensures var gone := R.Apply(s, R.IsCancelled(i));
            && |gone.episodes| == |s.episodes| && R.At(gone, i, R.Finished) && R.Live(gone) == None
            && gone.log == s.log
  {
    hide R.DialFails, R.Finish, R.StopRelaying, R.BeginFinalClose;
    var asked := R.Ask(s, i);
    assert R.Apply(s, R.IsCancelled(i)) == R.CutShort(asked, i);
    FinishedHere(asked, i);
    hide R.Apply;
  }

  lemma FinishedHere(s: R.Relay, i: nat)
    requires i < |s.episodes| && s.current == Some(i)
    ensures R.At(R.Finish(s, i), i, R.Finished) && R.Live(R.Finish(s, i)) == None && R.Finish(s, i).log == s.log
  {
  }

  lemma AsksAnew(s: R.Relay, target: string)
    requires R.Live(s) == None
    ensures R.Apply(R.Apply(s, R.Asks(target)), R.Starts(|s.episodes|)).log == s.log + [R.Dial(target)]
  {
    var asked := R.Apply(s, R.Asks(target));
    assert asked == R.Request(s, target);
    assert R.At(asked, |s.episodes|, R.NotStarted) && asked.episodes[|s.episodes|].target == target;
  }

  lemma ThreeSteps(s: R.Relay, a: R.Step, b: R.Step, c: R.Step)
    ensures R.Run(s, [a, b, c]) == R.Apply(R.Apply(R.Apply(s, a), b), c)
  {
    hide R.Apply;
    R.TwoSteps(s, a, b, [c]);
    assert [a, b] + [c] == [a, b, c] && [c] + [] == [c];
    R.RunFirst(R.Apply(R.Apply(s, a), b), c, []);
  }

  /** A close of the same call is never begun twice. */
  lemma NoSecondClose(steps: seq<R.Step>, more: seq<R.Step>, m: nat, call: nat)
    requires m < |R.Exec(steps).log| && R.Exec(steps).log[m] == R.HangUp(call)
    ensures var log := R.Exec(steps + more).log;
            m < |log| && log[m] == R.HangUp(call) && forall n :: m < n < |log| ==> log[n] != R.HangUp(call)
  {
    hide R.Exec;
    LogGrows(steps, more);
    var log := R.Exec(steps + more).log;
    assert log[m] == log[..|R.Exec(steps).log|][m];
    R.Reachable(steps + more);
    forall n | m < n < |log| ensures log[n] != R.HangUp(call) {
      if log[n] == R.HangUp(call) {
        R.LineBefore(log, n);
        R.NeverUpAgain(log, m, n, call);
      }
    }
  }

  lemma {:induction false} LogGrows(steps: seq<R.Step>, more: seq<R.Step>)
    ensures R.Exec(steps).log <= R.Exec(steps + more).log
  {
    if more == [] {
      assert steps + [] == steps;
    } else {
      var front, last := steps + more[..|more| - 1], more[|more| - 1];
      assert (steps + more)[..|steps + more| - 1] == front;
      LogGrows(steps, more[..|more| - 1]);
      StepLogs(R.Exec(front), last);
    }
  }

  lemma StepLogs(s: R.Relay, step: R.Step)
    ensures s.log <= R.Apply(s, step).log
  {
    hide R.SentTo, R.DeadOf, R.DropAll, R.Enumerates, R.WaitOver, R.CallOf, R.HangUpOf, R.Viewers;
    if R.Enabled(s, step) && R.OwnerStep(step) {
      OwnerLogs(s, step);
    } else if R.Enabled(s, step) && step.Frame? {
      DropAllLogs(s.(log := s.log + R.SentTo(step.order, s.clients, step.failing, step.call, s.generation)),
                  R.DeadOf(step.order, s.clients, step.failing));
    }
  }

  lemma OwnerLogs(s: R.Relay, step: R.Step)
    requires R.Enabled(s, step) && R.OwnerStep(step)
    ensures s.log <= R.Apply(s, step).log
  {
    hide R.StartDial, R.Answers, R.DialFails, R.StopRelaying, R.BeginClose, R.BeginFinalClose, R.CloseDone, R.Finish,
         R.Cancel;
    var i := step.episode;
    var e := s.episodes[i];
    match step
    case Starts(_) => MoveLogs(s, i, false, false);
    case DialReturns(_) => MoveLogs(s, i, false, false);
    case DialRaises(_) => EndLogs(s, i, false, false);
    case WaitReturns(_) =>
      var call := e.call.value;
      MoveLogs(s, i, call in s.idles && s.idles[call].Returned?, false);
    case PumpEnded(_) =>
    case IdleEnded(_) => MoveLogs(s, i, e.pc.left, e.pc.cancelled);
    case Closed(_) => EndLogs(s, i, e.pc.left, false);
    case FinallyClosed(_) => EndLogs(s, i, false, false);
    case IsCancelled(_) => CancelLogs(s, i);
    case IsAsked(_) =>
  }

  lemma MoveLogs(s: R.Relay, i: nat, left: bool, cancelled: bool)
    requires i < |s.episodes|
    ensures s.log <= R.StartDial(s, i).log && s.log <= R.Answers(s, i).log
    ensures s.log <= R.BeginClose(s, i, left).log && s.log <= R.BeginFinalClose(s, i).log
    ensures R.StopRelaying(s, i, left, cancelled).log == s.log
  {
    hide R.HangUpOf, R.CallOf;
  }

  lemma EndLogs(s: R.Relay, i: nat, left: bool, cancelled: bool)
    requires i < |s.episodes|
    ensures s.log <= R.DialFails(s, i, cancelled).log && R.Finish(s, i).log == s.log
    ensures s.log <= R.CloseDone(s, i, left).log
  {
    hide R.Viewers;
  }

  lemma CancelLogs(s: R.Relay, i: nat)
    requires i < |s.episodes|
    ensures s.log <= R.Cancel(s, i).log
  {
    var asked := R.With(s, i, s.episodes[i].(cancelling := true));
    hide R.DialFails, R.Finish, R.StopRelaying, R.BeginFinalClose, R.HangUpOf;
    EndLogs(asked, i, false, true);
    MoveLogs(asked, i, false, true);
  }

  lemma {:induction false} DropAllLogs(s: R.Relay, dead: seq<nat>)
    ensures R.DropAll(s, dead).log == s.log
    decreases |dead|
  {
    if dead != [] {
      DropAllLogs(R.Drop(s, dead[0]), dead[1..]);
    }
  }
}
