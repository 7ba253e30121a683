/** What the relay (viper/rtsp.py) does for those who watch: whom a packet reaches, when the grace begins once they go,
    and what those who asked for a call are told. */
module RelayViewers {
  import opened Bytes
  import opened Relay
  import opened RelayRuns

  // ---------------------------------------------------------------- a packet

  predicate Gets(clients: map<nat, bool>, failing: set<nat>, c: nat) {
    c in clients && clients[c] && c !in failing
  }

  predicate Fails(clients: map<nat, bool>, failing: set<nat>, c: nat) {
    c in clients && clients[c] && c in failing
  }

  lemma {:induction false} SentCounts(order: seq<nat>, clients: map<nat, bool>, failing: set<nat>, call: nat,
                                      generation: nat, c: nat)
    ensures multiset(SentTo(order, clients, failing, call, generation))[Sent(c, call, generation)]
            == if Gets(clients, failing, c) then multiset(order)[c] else 0
    ensures forall act :: act in SentTo(order, clients, failing, call, generation) ==>
              act.Sent? && act == Sent(act.client, call, generation)
    decreases |order|
  {
    if order != [] {
      SentCounts(order[1..], clients, failing, call, generation, c);
      assert order == [order[0]] + order[1..];
      assert multiset(order) == multiset{order[0]} + multiset(order[1..]);
    }
  }

  lemma {:induction false} DeadAre(order: seq<nat>, clients: map<nat, bool>, failing: set<nat>, c: nat)
    ensures c in DeadOf(order, clients, failing) <==> c in order && Fails(clients, failing, c)
    decreases |order|
  {
    if order != [] {
      DeadAre(order[1..], clients, failing, c);
      assert order == [order[0]] + order[1..];
    }
  }

  /** An order that goes over all the clients and is no longer than they are many has each once. */
  lemma EachOnce(order: seq<nat>, clients: map<nat, bool>, c: nat)
    requires Enumerates(order, clients)
    ensures multiset(order)[c] == if c in clients then 1 else 0
  {
    var all := multiset(clients.Keys);
    assert |all| == |clients.Keys| == |clients|;
    assert all <= multiset(order) by {
      forall d ensures all[d] <= multiset(order)[d] {
        assert d in clients ==> d in order;
      }
    }
    var rest := multiset(order) - all;
    assert multiset(order) == all + rest && |rest| == 0;
  }

  lemma {:induction false} DropAllLeaves(s: Relay, dead: seq<nat>, c: nat)
    ensures var r := DropAll(s, dead);
            && (c in r.clients <==> c in s.clients && c !in dead)
            && (c in r.clients ==> r.clients[c] == s.clients[c])
    decreases |dead|
  {
    if dead != [] {
      DropAllLeaves(Drop(s, dead[0]), dead[1..], c);
      assert dead == [dead[0]] + dead[1..];
    }
  }

  /** Every client that plays and can take it gets a packet of the call exactly once, stamped with the generation of the
      moment, and nobody else gets anything; those that play and cannot take it are dropped, and nobody else is. */
  lemma FrameReachesEveryPlayer(steps: seq<Step>, call: nat, order: seq<nat>, failing: set<nat>, c: nat)
    requires Enabled(Exec(steps), Frame(call, order, failing))
    ensures var s, r := Exec(steps), Exec(steps + [Frame(call, order, failing)]);
            && s.log <= r.log
            && var sent := r.log[|s.log|..];
            && multiset(sent)[Sent(c, call, s.generation)]
               == (if c in s.clients && s.clients[c] && c !in failing then 1 else 0)
            && (forall act :: act in sent ==> act.Sent? && act == Sent(act.client, call, s.generation))
            && (c in r.clients <==> c in s.clients && !(s.clients[c] && c in failing))
            && (c in r.clients ==> r.clients[c] == s.clients[c])
  {
    var s := Exec(steps);
    assert (steps + [Frame(call, order, failing)])[..|steps|] == steps;
    SentCounts(order, s.clients, failing, call, s.generation, c);
    EachOnce(order, s.clients, c);
    DeadAre(order, s.clients, failing, c);
    hide Exec, DropAll, SentTo, DeadOf;
    var sent := s.(log := s.log + SentTo(order, s.clients, failing, call, s.generation));
    var dead := DeadOf(order, s.clients, failing);
    DropAllOnly(sent, dead);
    DropAllLeaves(sent, dead, c);
  }

  // ---------------------------------------------------------------- who plays

  predicate IsPlaying(s: Relay, c: nat) {
    c in s.clients && s.clients[c]
  }

  /** A client goes: it leaves, or cannot take a packet while it plays, or everything stops. */
  predicate Goes(s: Relay, step: Step, c: nat) {
    match step
    case Leaves(client) => client == c
    case Frame(_, _, failing) => Enabled(s, step) && IsPlaying(s, c) && c in failing
    case Stops => true
    case _ => false
  }

  lemma StepPlays(s: Relay, step: Step, c: nat)
    ensures var r := Apply(s, step);
            && (c in r.clients <==> (step == Connects(c) && !s.stopped) || (c in s.clients && !Goes(s, step, c)))
            && (IsPlaying(r, c) <==>
                  (step == Step.Plays(c) && c in s.clients) || (IsPlaying(s, c) && !Goes(s, step, c)))
  {
    if !Enabled(s, step) {
      hide Enabled;
      NotEnabled(s, step);
    } else if OwnerStep(step) {
      OwnerOwns(s, step);
      hide Apply, Enabled;
    } else if step.Frame? {
      hide FanOut;
      FramePlays(s, step, c);
    } else {
      hide OwnerStep, IdleRound, Viewers;
      RoundsKeepClients(s, step);
    }
  }

  lemma NotEnabled(s: Relay, step: Step)
    requires !Enabled(s, step)
    ensures step.Connects? ==> s.stopped
    ensures step.Plays? ==> step.client !in s.clients
    ensures !step.Leaves? && !step.Stops?
  {
  }

  lemma RoundsKeepClients(s: Relay, step: Step)
    ensures step.IdleStarts? || step.GraceOver? ==> IdleRound(s, step.call).clients == s.clients
  {
  }

  lemma FramePlays(s: Relay, step: Step, c: nat)
    requires step.Frame? && Enabled(s, step)
    ensures var r := FanOut(s, step.call, step.order, step.failing);
            && (c in r.clients <==> c in s.clients && !(s.clients[c] && c in step.failing))
            && (c in r.clients ==> r.clients[c] == s.clients[c])
  {
    hide DropAll, DeadOf, SentTo;
    EachOnce(step.order, s.clients, c);
    DeadAre(step.order, s.clients, step.failing, c);
    DropAllLeaves(s.(log := s.log + SentTo(step.order, s.clients, step.failing, step.call, s.generation)),
                  DeadOf(step.order, s.clients, step.failing), c);
  }

  /** At step `n` of a run client `c` asked for PLAY, being connected, and it has not gone since. */
  ghost predicate PlaysSince(steps: seq<Step>, n: nat, c: nat) {
    && n < |steps| && steps[n] == Step.Plays(c) && c in Exec(steps[..n]).clients
    && forall m :: n < m < |steps| ==> !Goes(Exec(steps[..m]), steps[m], c)
  }

  /** In every run, a client plays exactly if it has asked for that, being connected, and has not gone since. */
  lemma {:induction false} PlaysExactlyWhen(steps: seq<Step>, c: nat)
    ensures IsPlaying(Exec(steps), c) <==> exists n: nat :: PlaysSince(steps, n, c)
  {
    hide *;
    if steps == [] {
      NobodyYet(c);
    } else {
      var front, last := steps[..|steps| - 1], steps[|steps| - 1];
      PlaysExactlyWhen(front, c);
      ExecStep(front, last);
      StepPlays(Exec(front), last, c);
      SinceOn(front, last, c);
      assert steps == front + [last];
    }
  }

  lemma NobodyYet(c: nat)
    ensures !IsPlaying(Exec([]), c) && forall n: nat :: !PlaysSince([], n, c)
  {
  }

  lemma ExecStep(front: seq<Step>, last: Step)
    ensures Exec(front + [last]) == Apply(Exec(front), last)
  {
    hide Apply;
    assert (front + [last])[..|front|] == front;
  }

  lemma SinceOn(front: seq<Step>, last: Step, c: nat)
    ensures (exists n: nat :: PlaysSince(front + [last], n, c))
            <==> || (last == Step.Plays(c) && c in Exec(front).clients)
                 || ((exists n: nat :: PlaysSince(front, n, c)) && !Goes(Exec(front), last, c))
  {
    hide Exec, Goes;
    var steps, k := front + [last], |front|;
    assert steps[..k] == front && steps[k] == last;
    assert forall n :: 0 <= n < k ==> steps[n] == front[n] && steps[..n] == front[..n];
    if last == Step.Plays(c) && c in Exec(front).clients {
      assert PlaysSince(steps, k, c);
    }
    if !Goes(Exec(front), last, c) {
      if n: nat :| PlaysSince(front, n, c) {
        assert PlaysSince(steps, n, c);
      }
    }
    if n: nat :| PlaysSince(steps, n, c) && n < k {
      assert PlaysSince(front, n, c);
    }
  }

  // ---------------------------------------------------------------- the grace

  /** Whether the idle watch of this call is sleeping out a grace that began now. */
  predicate InGrace(s: Relay, call: nat) {
    call in s.idles && s.idles[call].Sleeping?
  }

  /** A client goes, or fails, and then nobody plays. */
  predicate Departs(s: Relay, step: Step) {
    (step.Leaves? || step.Frame?) && Viewers(Apply(s, step)) == 0
  }

  /** What a step does to the idle watch of a call. */
  predicate WatchMoves(s: Relay, r: Relay, step: Step, call: nat) {
    && (InGrace(r, call) && !(InGrace(s, call) && r.idles[call] == s.idles[call]) <==>
          && call in s.idles
          && ((step == IdleStarts(call) && s.idles[call].IdleNotStarted? && s.clients == map[])
              || (step == IdleWakes(call) && s.idles[call].Blocked? && s.idleSet)))
    && (InGrace(r, call) && !(InGrace(s, call) && r.idles[call] == s.idles[call]) ==>
          r.idles[call] == Sleeping(s.now))
    && (r.idleSet && !s.idleSet ==> Departs(s, step))
    && (call in r.idles && r.idles[call].Blocked? && !(call in s.idles && s.idles[call].Blocked?) ==> !r.idleSet)
  }

  lemma StepMoves(s: Relay, step: Step, call: nat)
    requires Inv(s)
    ensures WatchMoves(s, Apply(s, step), step, call)
  {
    if !Enabled(s, step) {
      hide Inv;
    } else if OwnerStep(step) {
      hide Inv, Apply, Enabled, WatchMoves;
      OwnerMoves(s, step, call);
    } else if step.Frame? {
      hide Inv, FanOut, WatchMoves;
      FrameMoves(s, step, call);
    } else {
      hide OwnerStep, Inv, Viewers, WatchMoves;
      ClientMoves(s, step, call);
    }
  }

  lemma OwnerMoves(s: Relay, step: Step, call: nat)
    requires OwnerStep(step) && Enabled(s, step)
    ensures WatchMoves(s, Apply(s, step), step, call)
  {
    hide Apply, Enabled, Viewers, DialsOnly;
    OwnerOwns(s, step);
  }

  lemma FrameMoves(s: Relay, step: Step, call: nat)
    requires step.Frame? && Enabled(s, step)
    ensures WatchMoves(s, FanOut(s, step.call, step.order, step.failing), step, call)
  {
    hide FanOut, Viewers;
    FrameOnly(s, step.call, step.order, step.failing);
    FrameSets(s, step.call, step.order, step.failing);
  }

  lemma ClientMoves(s: Relay, step: Step, call: nat)
    requires Enabled(s, step) && !OwnerStep(step) && !step.Frame?
    ensures WatchMoves(s, Apply(s, step), step, call)
  {
    hide OwnerStep, Playing, WatchMoves;
    if step.IdleStarts? || step.IdleWakes? || step.GraceOver? {
      IdleMoves(s, step, call);
    } else {
      OthersMove(s, step, call);
    }
  }

  lemma IdleMoves(s: Relay, step: Step, call: nat)
    requires Enabled(s, step) && (step.IdleStarts? || step.IdleWakes? || step.GraceOver?)
    ensures WatchMoves(s, Apply(s, step), step, call)
  {
    EmptyPlaysNothing(s.clients);
    hide Playing, OwnerStep;
  }

  lemma OthersMove(s: Relay, step: Step, call: nat)
    requires Enabled(s, step) && !OwnerStep(step) && !step.Frame?
    requires !step.IdleStarts? && !step.IdleWakes? && !step.GraceOver?
    ensures WatchMoves(s, Apply(s, step), step, call)
  {
    hide Playing;
  }

  lemma {:induction false} DropAllSets(s: Relay, dead: seq<nat>)
    ensures DropAll(s, dead).idleSet && !s.idleSet ==> Viewers(DropAll(s, dead)) == 0
    decreases |dead|
  {
    if dead != [] {
      var one := Drop(s, dead[0]);
      DropAllSets(one, dead[1..]);
      if one.idleSet && !s.idleSet {
        StaysEmpty(one, dead[1..]);
      }
    }
  }

  lemma {:induction false} StaysEmpty(s: Relay, dead: seq<nat>)
    requires Viewers(s) == 0
    ensures Viewers(DropAll(s, dead)) == 0
    decreases |dead|
  {
    if dead != [] {
      assert Playing(Drop(s, dead[0]).clients) <= Playing(s.clients);
      StaysEmpty(Drop(s, dead[0]), dead[1..]);
    }
  }

  lemma FrameSets(s: Relay, call: nat, order: seq<nat>, failing: set<nat>)
    ensures var r := FanOut(s, call, order, failing); r.idleSet && !s.idleSet ==> Viewers(r) == 0
  {
    DropAllSets(s.(log := s.log + SentTo(order, s.clients, failing, call, s.generation)),
                DeadOf(order, s.clients, failing));
  }

  /** The grace of a call begins exactly when its watch starts and nobody is connected, or is woken; and it is counted
      from that very instant. */
  lemma GraceBeginsExactlyWhen(steps: seq<Step>, step: Step, call: nat)
    ensures var s, r := Exec(steps), Exec(steps + [step]);
            && (InGrace(r, call) && !(InGrace(s, call) && r.idles[call] == s.idles[call]) <==>
                  && call in s.idles
                  && ((step == IdleStarts(call) && s.idles[call].IdleNotStarted? && s.clients == map[])
                      || (step == IdleWakes(call) && s.idles[call].Blocked? && s.idleSet)))
            && (InGrace(r, call) && !(InGrace(s, call) && r.idles[call] == s.idles[call]) ==>
                  r.idles[call] == Sleeping(s.now))
  {
    assert (steps + [step])[..|steps|] == steps;
    Reachable(steps);
    StepMoves(Exec(steps), step, call);
    hide Apply, Inv;
  }

  predicate IsBlocked(s: Relay, call: nat) {
    call in s.idles && s.idles[call].Blocked?
  }

  /** At step `n` of a run somebody went while the watch of this call was waiting, and after that nobody played. */
  ghost predicate WentAt(steps: seq<Step>, n: nat, call: nat) {
    && n < |steps| && Departs(Exec(steps[..n]), steps[n])
    && forall m :: n <= m <= |steps| ==> IsBlocked(Exec(steps[..m]), call)
  }

  lemma WakesBefore(s: Relay, last: Step, call: nat)
    requires Inv(s) && Enabled(Apply(s, last), IdleWakes(call))
    ensures IsBlocked(s, call) && (Enabled(s, IdleWakes(call)) || Departs(s, last))
  {
    hide Apply, Inv, Departs;
    StepMoves(s, last, call);
  }

  /** And a watch that waits is woken only when somebody has gone while it was waiting, and nobody played after that. */
  lemma {:induction false} WokenByDeparture(steps: seq<Step>, call: nat)
    requires Enabled(Exec(steps), IdleWakes(call))
    ensures exists n: nat :: WentAt(steps, n, call)
  {
    if steps != [] {
      var front, last := steps[..|steps| - 1], steps[|steps| - 1];
      hide Apply, Inv, Departs, WentAt;
      Reachable(front);
      WakesBefore(Exec(front), last, call);
      assert steps == front + [last];
      if Departs(Exec(front), last) {
        WentJustNow(front, last, call);
      } else {
        WokenByDeparture(front, call);
        var n: nat :| WentAt(front, n, call);
        StillBlocked(front, last, n, call);
      }
    }
  }

  lemma WentJustNow(front: seq<Step>, last: Step, call: nat)
    requires Departs(Exec(front), last) && IsBlocked(Exec(front), call)
    requires Enabled(Exec(front + [last]), IdleWakes(call))
    ensures WentAt(front + [last], |front|, call)
  {
    hide Apply, Exec, Departs;
    var steps := front + [last];
    assert steps[..|steps|] == steps && steps[..|front|] == front;
  }

  lemma StillBlocked(front: seq<Step>, last: Step, n: nat, call: nat)
    requires WentAt(front, n, call) && Enabled(Exec(front + [last]), IdleWakes(call))
    ensures WentAt(front + [last], n, call)
  {
    hide Apply, Exec, Departs;
    var steps := front + [last];
    assert steps[..|steps|] == steps && forall m :: 0 <= m <= |front| ==> steps[..m] == front[..m];
  }

  // ---------------------------------------------------------------- what those who asked are told

  /** A dial of episode `i` came back with a call. */
  ghost predicate WasDialled(steps: seq<Step>, i: nat) {
    exists n :: 0 <= n < |steps| && steps[n] == DialReturns(i) && At(Exec(steps[..n]), i, Dialling)
  }

  /** Its first dial raised. */
  ghost predicate FirstRaised(steps: seq<Step>, i: nat) {
    exists n :: 0 <= n < |steps| && steps[n] == DialRaises(i) && At(Exec(steps[..n]), i, Dialling)
                && !WasDialled(steps[..n], i)
  }

  lemma OneStepOn(front: seq<Step>, last: Step, i: nat)
    ensures WasDialled(front + [last], i)
            <==> WasDialled(front, i) || (last == DialReturns(i) && At(Exec(front), i, Dialling))
    ensures FirstRaised(front + [last], i)
            <==> || FirstRaised(front, i)
                 || (last == DialRaises(i) && At(Exec(front), i, Dialling) && !WasDialled(front, i))
  {
    hide Exec;
    var steps := front + [last];
    assert steps[..|front|] == front && steps[|front|] == last;
    assert forall n :: 0 <= n <= |front| ==> steps[..n] == front[..n];
    assert forall n :: 0 <= n < |front| ==> steps[n] == front[n];
  }

  /** What is known of an episode's flags, and of one not made yet. */
  ghost predicate FlagsOk(s: Relay, i: nat, dialled: bool, raised: bool) {
    if i < |s.episodes| then
      && (s.episodes[i].failed <==> raised) && (raised ==> s.episodes[i].pc.Finished? && s.episodes[i].ready)
      && (!s.episodes[i].pc.Finished? ==> (s.episodes[i].dialled <==> dialled))
    else !dialled && !raised
  }

  predicate SameFlags(s: Relay, r: Relay, i: nat) {
    && i < |s.episodes| && i < |r.episodes|
    && r.episodes[i].failed == s.episodes[i].failed && r.episodes[i].dialled == s.episodes[i].dialled
  }

  lemma StopFlags(s: Relay, i: nat, left: bool, cancelled: bool)
    requires i < |s.episodes|
    ensures SameFlags(s, StopRelaying(s, i, left, cancelled), i)
  {
  }

  lemma CloseFlags(s: Relay, i: nat, left: bool)
    requires i < |s.episodes|
    ensures SameFlags(s, BeginClose(s, i, left), i) && SameFlags(s, BeginFinalClose(s, i), i)
  {
  }

  lemma FinishFlags(s: Relay, i: nat)
    requires i < |s.episodes|
    ensures SameFlags(s, Finish(s, i), i) && SameFlags(s, StartDial(s, i), i)
  {
  }

  lemma AnswerFlags(s: Relay, i: nat, cancelled: bool)
    requires i < |s.episodes|
    ensures var e := Answers(s, i).episodes[i]; e.dialled && e.failed == s.episodes[i].failed
    ensures var e := DialFails(s, i, cancelled).episodes[i];
            e.pc.Finished? && e.ready && (e.failed <==> !cancelled && !s.episodes[i].dialled)
  {
  }

  lemma CutShortFlags(s: Relay, i: nat)
    requires i < |s.episodes|
    ensures SameFlags(s, CutShort(s, i), i) || (s.episodes[i].pc.Dialling? && CutShort(s, i) == DialFails(s, i, true))
  {
    hide StopRelaying, BeginFinalClose, Finish, DialFails;
    match s.episodes[i].pc
    case Relaying => StopFlags(s, i, false, true);
    case EndingPump(_, _) => CloseFlags(s, i, false);
    case EndingIdle(_, _) => CloseFlags(s, i, false);
    case Closing(_) => FinishFlags(s, i);
    case _ =>
  }

  lemma CancelFlags(s: Relay, i: nat, dialled: bool, raised: bool)
    requires i < |s.episodes| && FlagsOk(s, i, dialled, raised) && EpisodeOk(s.episodes[i])
    ensures FlagsOk(Cancel(s, i), i, dialled, raised)
  {
    if !s.episodes[i].pc.Finished? {
      hide CutShort, DialFails, OnlyEpisode;
      CutShortFlags(Ask(s, i), i);
      AnswerFlags(Ask(s, i), i, true);
    }
  }

  lemma OwnFlags(s: Relay, step: Step, i: nat, dialled: bool, raised: bool)
    requires OwnerStep(step) && Enabled(s, step) && step.episode == i && EpisodeOk(s.episodes[i])
    requires FlagsOk(s, i, dialled, raised)
    ensures FlagsOk(Apply(s, step), i, dialled || (step.DialReturns? && At(s, i, Dialling)),
                    raised || (step.DialRaises? && At(s, i, Dialling) && !dialled))
  {
    hide StopRelaying, BeginClose, BeginFinalClose, Finish, StartDial, Answers, DialFails, Cancel, EpisodeOk, Viewers;
    match step
    case Starts(_) => FinishFlags(s, i);
    case DialReturns(_) => AnswerFlags(s, i, false);
    case DialRaises(_) => AnswerFlags(s, i, false);
    case WaitReturns(_) => StopFlags(s, i, SaidGone(s, s.episodes[i].call.value), false);
    case PumpEnded(_) =>
    case IdleEnded(_) => CloseFlags(s, i, s.episodes[i].pc.left);
    case Closed(_) => FinishFlags(s, i);
    case FinallyClosed(_) => FinishFlags(s, i);
    case IsCancelled(_) => CancelFlags(s, i, dialled, raised);
    case IsAsked(_) =>
  }

  lemma StepFlags(s: Relay, step: Step, i: nat, dialled: bool, raised: bool)
    requires Inv(s) && FlagsOk(s, i, dialled, raised)
    ensures FlagsOk(Apply(s, step), i, dialled || (step == DialReturns(i) && At(s, i, Dialling)),
                    raised || (step == DialRaises(i) && At(s, i, Dialling) && !dialled))
  {
    if Enabled(s, step) && OwnerStep(step) {
      hide Inv, Apply, Enabled, FlagsOk, EpisodeOk;
      if step.episode == i {
        assert EpisodeOk(s.episodes[i]) by { OwnerOf(s, i); }
        OwnFlags(s, step, i, dialled, raised);
      } else {
        OtherFlags(s, step, i, dialled, raised);
      }
    } else {
      hide Inv, FlagsOk, FanOut;
      PlainFlags(s, step, i, dialled, raised);
    }
  }

  lemma OwnerOf(s: Relay, i: nat)
    requires Inv(s) && i < |s.episodes|
    ensures EpisodeOk(s.episodes[i])
  {
  }

  lemma OtherFlags(s: Relay, step: Step, i: nat, dialled: bool, raised: bool)
    requires OwnerStep(step) && Enabled(s, step) && step.episode != i && FlagsOk(s, i, dialled, raised)
    ensures FlagsOk(Apply(s, step), i, dialled, raised)
  {
    hide Apply, Enabled;
    OthersStay(s, step, i);
  }

  lemma PlainFlags(s: Relay, step: Step, i: nat, dialled: bool, raised: bool)
    requires !(Enabled(s, step) && OwnerStep(step)) && FlagsOk(s, i, dialled, raised)
    ensures FlagsOk(Apply(s, step), i, dialled, raised)
    ensures !(step == DialReturns(i) && At(s, i, Dialling)) && !(step == DialRaises(i) && At(s, i, Dialling))
  {
    hide FanOut, Drop, IdleRound;
    SameOwners(s, step);
    if step.Frame? {
      FrameOnly(s, step.call, step.order, step.failing);
    }
  }

  /** Over every run, those who asked for an episode's call are told that it failed exactly when its first dial raised;
      the owner is done by then, and they have been let go. */
  lemma FailsExactlyWhenFirstRaised(steps: seq<Step>, i: nat)
    requires i < |Exec(steps).episodes|
    ensures var e := Exec(steps).episodes[i];
            (e.failed <==> FirstRaised(steps, i)) && (e.failed ==> e.pc.Finished? && e.ready)
  {
    FlagsAlwaysOk(steps, i);
    hide Exec, FirstRaised, WasDialled;
  }

  lemma {:induction false} FlagsAlwaysOk(steps: seq<Step>, i: nat)
    ensures FlagsOk(Exec(steps), i, WasDialled(steps, i), FirstRaised(steps, i))
  {
    if steps != [] {
      var front, last := steps[..|steps| - 1], steps[|steps| - 1];
      hide FlagsOk, Apply, WasDialled, FirstRaised, Inv;
      FlagsAlwaysOk(front, i);
      Reachable(front);
      StepFlags(Exec(front), last, i, WasDialled(front, i), FirstRaised(front, i));
      OneStepOn(front, last, i);
      assert steps == front + [last];
    }
  }
}
