/** What a pass of the watchdog (hub.py) comes to, by what it finds: the ages, whether the panel answers, and whether
    somebody is using the connection. */
module Watchdog {
  import opened Bytes
  import opened LinkHistory
  import opened Link

  /** A connection is being served, and this step goes on with its watchdog. */
  predicate Serves(h: Hub, step: Step) {
    && !h.stopping && h.sock.Up? && Serving(h.pc) && Enabled(h, step)
    && (step.Wakes? || step.RenewalReturns? || step.ProbeReturns?)
  }

  /** The panel has not answered. */
  predicate Unanswered(step: Step) {
    (step.RenewalReturns? && !step.ok) || (step.ProbeReturns? && !step.ok)
  }

  /** Nothing is left to ask of the panel in this pass, which began at `began`: neither a renewal nor a probe. */
  predicate AsksNoMore(h: Hub, step: Step, began: real) {
    match step
    case Wakes(silent, _) =>
      began == h.now && !silent && h.registeredAt.Some? && h.now - h.registeredAt.value < 900.0
    case RenewalReturns(ok, silent, _) => h.pc.Registering? && began == h.pc.began && ok && !silent
    case ProbeReturns(ok, _) => h.pc.Probing? && began == h.pc.began && ok
    case _ => false
  }

  /** In every run, a connection being served is closed by its watchdog exactly when the panel does not answer, and is
      then given up, or when a pass that found nothing wrong finds it 3000 seconds old or older and in nobody's use,
      and is then replaced. */
  lemma ClosedExactlyWhen(limit: real, steps: seq<Step>, step: Step)
    requires Serves(Exec(limit, steps), step)
    ensures var h, r := Exec(limit, steps), Exec(limit, steps + [step]);
            && (r.sock.Closing? && r.pc.Dropping? <==> Unanswered(step))
            && (r.sock.Closing? && r.pc.Recycling? <==>
                  exists began :: AsksNoMore(h, step, began) && !step.busy
                                  && h.connectedAt.Some? && began - h.connectedAt.value >= 3000.0)
            && (!r.sock.Closing? ==> r.sock.Up? && Serving(r.pc))
  {
    assert (steps + [step])[..|steps|] == steps;
    AlwaysAgrees(limit, steps);
    hide Exec;
    PassCloses(Exec(limit, steps), step);
  }

  lemma PassCloses(h: Hub, step: Step)
    requires Serves(h, step) && Agrees(h)
    ensures var r := Apply(h, step);
            && (r.sock.Closing? && r.pc.Dropping? <==> Unanswered(step))
            && (r.sock.Closing? && r.pc.Recycling? <==>
                  exists began :: AsksNoMore(h, step, began) && !step.busy
                                  && h.connectedAt.Some? && began - h.connectedAt.value >= 3000.0)
            && (!r.sock.Closing? ==> r.sock.Up? && Serving(r.pc))
  {
    var began := if step.Wakes? then h.now else h.pc.began;
    assert forall other :: AsksNoMore(h, step, other) ==> other == began;
    assert AsksNoMore(h, step, began) || !AsksNoMore(h, step, began);
  }

  /** And it asks the panel exactly when it has to: for a new lease once that is 900 seconds old, and for any answer at
      all, after that, when nothing has been heard from it for so long. */
  lemma AsksExactlyWhen(limit: real, steps: seq<Step>, step: Step)
    requires Serves(Exec(limit, steps), step)
    ensures var h, r := Exec(limit, steps), Exec(limit, steps + [step]);
            && (r.pc.Registering? <==> step.Wakes? && h.registeredAt.Some? && h.now - h.registeredAt.value >= 900.0)
            && (r.pc.Probing? <==>
                  || (step.Wakes? && step.silent && h.registeredAt.Some? && h.now - h.registeredAt.value < 900.0)
                  || (step.RenewalReturns? && step.ok && step.silent))
            && (r.pc.Waiting? ==> r.pc == Waiting(r.now + 60.0))
            && (step.RenewalReturns? && step.ok ==> r.registeredAt == Some(h.now))
  {
    assert (steps + [step])[..|steps|] == steps;
    AlwaysAgrees(limit, steps);
    hide Exec;
  }

  /** Once the close of a connection that was given up is over, its listeners have been told that the link is down, and
      an attempt to connect again is owed; after that of one being replaced they have not, and it is owed at once. */
  lemma AfterItsClose(limit: real, steps: seq<Step>)
    requires var h := Exec(limit, steps); !h.stopping && h.sock.Closing? && (h.pc.Dropping? || h.pc.Recycling?)
    ensures var h, r := Exec(limit, steps), Exec(limit, steps + [CloseReturns]);
            && r.sock.Down? && r.registeredAt.None? && r.connectedAt.None? && r.history != []
            && (h.pc.Dropping? ==> r.notes == h.notes + [false] && r.history[|r.history| - 1].Delay?)
            && (h.pc.Recycling? ==> r.notes == h.notes && r.history[|r.history| - 1] == AtOnce(h.now))
  {
    assert (steps + [CloseReturns])[..|steps|] == steps;
    AlwaysAgrees(limit, steps);
    hide Exec, Backoff;
  }

  /** A link that is down again by the time its handshake comes back counts as none: it is closed, the listeners are
      told, and another attempt is owed. */
  lemma DeadLinkIsNone(limit: real, steps: seq<Step>)
    requires var h := Exec(limit, steps); Enabled(h, ConnectReturns) && !h.sock.Up? && !h.settingUp
    ensures var h, r := Exec(limit, steps), Exec(limit, steps + [ConnectReturns]);
            && r.connectedAt.None? && r.notes == h.notes + [false, false] && r.pc.Abandoning?
            && |r.history| == |h.history| + 3 && r.history[..|h.history|] == h.history
            && r.history[|h.history|] == CameUp(h.now) && r.history[|h.history| + 1] == Died
            && (r.history[|h.history| + 2].Delay? || r.history[|h.history| + 2].AtOnce?)
  {
    assert (steps + [ConnectReturns])[..|steps|] == steps;
    AlwaysAgrees(limit, steps);
    AlwaysCounted(limit, steps);
    hide Exec, Backoff;
    DeadOnes(Exec(limit, steps));
  }

  lemma DeadOnes(h: Hub)
    requires Agrees(h) && CountsOk(h) && h.pc.Connecting? && h.pc.shook.Some? && !h.sock.Up? && !h.settingUp
    ensures var r := ConnectDone(h);
            && r.connectedAt.None? && r.notes == h.notes + [false, false] && r.pc.Abandoning?
            && |r.history| == |h.history| + 3 && r.history[..|h.history|] == h.history
            && r.history[|h.history|] == CameUp(h.now) && r.history[|h.history| + 1] == Died
            && (r.history[|h.history| + 2].Delay? || r.history[|h.history| + 2].AtOnce?)
  {
    hide Backoff;
  }
}
