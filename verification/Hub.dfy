/** The hub's object (hub.py): the supervisor's fields, and the captures owed after a ring. A method is the code between
    two awaits. */
module Hub {
  import opened Bytes
  import opened Ctp
  import Calls
  import Captures
  import Link
  import LinkHistory

  /** What the "event" listeners and the bus are told of calls. */
  datatype CallEvent =
    | Rang(entrance: bool, caller: string, callee: string, origin: string, tag: bytes, body: bytes, received: real)
    | Ended(caller: string, origin: string, cause: Option<byte>)

  class ComelitVipHub {
    // what the hub sees of its session, and of the clock
    var now: real
    var sock: Link.Sock
    var registeredAt: Option<real>

    var connectedAt: Option<real>
    var replacing: bool
    var attempt: nat
    var authFailures: nat
    var immediate: bool
    var changed: bool
    var stopping: bool
    var capturesOwed: map<bytes, string>
    var snapshotOnRing: bool
    var recordOnRing: bool
    var entrances: Option<set<string>>
    var lastRing: Option<real>

    ghost const limit: real
    ghost var pc: Link.Pc
    ghost var settingUp: bool
    ghost var busyAt: Option<real>
    ghost var notes: seq<bool>
    ghost var history: seq<LinkHistory.Mark>
    ghost var outcomes: seq<Link.Outcome>
    ghost var events: seq<CallEvent>
    ghost var started: seq<Captures.Capture>
    ghost var promised: set<nat>

    ghost function View(): Link.Hub
      reads this
    {
      Link.Hub(now, limit, sock, registeredAt, pc, settingUp, connectedAt, replacing, attempt, authFailures, immediate,
               changed, stopping, busyAt, notes, history, outcomes)
    }

    /** In a state that the theorems about the link speak of. */
    ghost predicate Sound()
      reads this
    {
      Link.Agrees(View()) && Link.Timely(View()) && Link.CountsOk(View())
    }

    /** Of such an object: with neither a handshake nor a teardown under way and the hub not stopping, what the entities
        were last told is whether the link is available. */
    lemma TheyWereTold()
      requires Sound() && Link.Settled(View())
      ensures Available() <==> notes != [] && notes[|notes| - 1]
    {
    }

    ghost function CaptureView(): Captures.Hub
      reads this`capturesOwed, this`snapshotOnRing, this`recordOnRing, this`entrances, this`started, this`promised
    {
      Captures.Hub(capturesOwed, snapshotOnRing, recordOnRing, entrances, started, promised)
    }

    constructor (ghost limit: real)
      ensures View() == Link.Fresh(limit)
      ensures CaptureView() == Captures.Hub(map[], false, false, None, [], {}) && events == [] && lastRing == None
    {
      now, sock, registeredAt, connectedAt, replacing := 0.0, Link.Down, None, None, false;
      attempt, authFailures, immediate, changed, stopping := 0, 0, false, false, false;
      capturesOwed, snapshotOnRing, recordOnRing, entrances := map[], false, false, None;
      this.limit, pc, settingUp, busyAt := limit, Link.Connecting(false, None), true, None;
      notes, history, outcomes, started, promised := [], [], [], [], {};
      events, lastRing := [], None;
    }

    function IsConnected(): bool
      reads this`sock
    {
      sock.Up?
    }

    /** `available` */
    function Available(): (up: bool)
      reads this
      ensures up == Link.Available(View())
    {
      (IsConnected() && registeredAt.Some?) || replacing
    }

    // -------------------------------------------------------------- the link

    ghost method Notify(up: bool)
      modifies this`notes
      ensures View() == Link.Note(old(View()), up)
    {
      notes := notes + [up];
    }

    /** A connection that lasted starts the backoff over. */
    method EndLifetime()
      modifies this`attempt, this`history, this`connectedAt
      ensures View() == Link.EndLifetime(old(View()))
    {
      if connectedAt.Some? {
        var lifetime := now - connectedAt.value;
        if lifetime >= LinkHistory.STABLE_CONNECTION {
          attempt := 0;
          history := history + [LinkHistory.Lasted(lifetime)];
        }
      }
      connectedAt := None;
    }

    ghost method Lowering(why: LinkHistory.Mark, quiet: bool)
      modifies this`notes, this`history
      ensures View() == Link.Lowering(old(View()), why, quiet)
    {
      if !quiet {
        Notify(false);
      }
      history := history + [why];
    }

    method LowerLink(ghost why: LinkHistory.Mark, immediate: bool, quiet: bool)
      modifies this`replacing, this`notes, this`attempt, this`history, this`connectedAt, this`immediate, this`changed
      ensures View() == Link.LowerLink(old(View()), why, immediate, quiet)
    {
      hide Link.EndLifetime;
      hide Link.Lowering;
      Lowering(why, quiet);
      EndLifetime();
      replacing := quiet;
      this.immediate := immediate;
      changed := true;
    }

    /** The session's reader has torn the connection down. */
    method OnDisconnect()
      requires sock.Losing?
      modifies this`sock, this`registeredAt, this`connectedAt, this`replacing, this`attempt, this`authFailures,
               this`immediate, this`changed, this`pc, this`settingUp, this`busyAt, this`notes, this`history,
               this`outcomes
      ensures View() == Link.Apply(old(View()), Link.LossEnds)
    {
      sock, registeredAt := Link.Down, None;
      if stopping {
        return;
      }
      LowerLink(LinkHistory.Lost(now), false, false);
    }

    method ReportDown()
      modifies this`replacing, this`notes
      ensures View() == Link.ReportDown(old(View()))
    {
      if replacing {
        replacing := false;
        Notify(false);
      }
    }

    /** `_raise_link` up to its first await. */
    method RaiseLink() returns (delay: real)
      modifies this`immediate, this`attempt, this`history, this`pc
      ensures View() == Link.RaiseLink(old(View())) && pc == Link.Abandoning(delay)
    {
      if immediate {
        delay := 0.0;
        immediate := false;
        attempt := 0;
        history := history + [LinkHistory.AtOnce(now)];
      } else {
        var last := |LinkHistory.RECONNECT_BACKOFF| - 1;
        delay := LinkHistory.RECONNECT_BACKOFF[if attempt <= last then attempt else last];
        history := history + [LinkHistory.Delay(delay, now)];
        attempt := attempt + 1;
      }
      pc := Link.Abandoning(delay);
    }

    /** `_raise_link` once the relay has let its call go: the delay owed is slept out, if there is one. */
    method CallAbandoned(delay: real)
      requires pc == Link.Abandoning(delay) && (delay > 0.0 || sock.Down?)
      modifies this`immediate, this`attempt, this`history, this`pc, this`changed
      ensures View() == Link.Apply(old(View()), Link.CallAbandoned)
    {
      hide Link.BeginConnect;
      if delay > 0.0 {
        pc := Link.BackingOff(now + delay);
      } else {
        BeginConnect();
      }
    }

    /** And after that sleep, up to `_connect`. */
    method BeginConnect()
      modifies this`immediate, this`attempt, this`history, this`pc, this`changed
      ensures View() == Link.BeginConnect(old(View()))
    {
      hide Link.Loop;
      if stopping {
        Supervise();
      } else {
        history := history + [LinkHistory.Attempt(now)];
        pc := Link.Connecting(false, None);
      }
    }

    /** The top of `_supervise`'s loop, up to its next await. */
    method Supervise()
      modifies this`immediate, this`attempt, this`history, this`pc, this`changed
      ensures View() == Link.Loop(old(View()))
    {
      if stopping {
        pc := Link.Stopped;
      } else if IsConnected() {
        changed := false;
        pc := Link.Waiting(now + Link.WATCHDOG_INTERVAL);
      } else {
        var _ := RaiseLink();
      }
    }

    /** An attempt to connect has failed, and been cleaned up after. */
    method ConnectFailed(failure: Link.Failure)
      requires !settingUp
      modifies this`replacing, this`attempt, this`authFailures, this`immediate, this`changed, this`pc, this`notes,
               this`history, this`outcomes
      ensures View() == Link.ConnectFailed(old(View()), failure)
    {
      hide Link.Loop, Link.ReportDown, Link.CountRefusal;
      ReportDown();
      if failure.LinkError? {
        outcomes := outcomes + [Link.Failed];
        Supervise();
      } else {
        CountRefusal();
        if authFailures < Link.AUTH_FAILURES_BEFORE_REAUTH {
          Supervise();
        } else {
          pc := Link.GaveUp;
        }
      }
    }

    method CountRefusal()
      modifies this`authFailures, this`outcomes
      ensures View() == Link.CountRefusal(old(View()))
    {
      authFailures := authFailures + 1;
      outcomes := outcomes + [Link.Refused];
    }

    /** `_connect`, from the end of its handshake on. */
    method HandshakeDone()
      modifies this`connectedAt, this`authFailures, this`replacing, this`settingUp, this`busyAt, this`outcomes,
               this`notes, this`history
      ensures View() == Link.Connected(old(View()))
    {
      hide Link.Available, Link.Renewed, Link.Note;
      Renew();
      Notify(Available());
    }

    method Renew()
      modifies this`connectedAt, this`authFailures, this`replacing, this`settingUp, this`busyAt, this`outcomes,
               this`history
      ensures View() == Link.Renewed(old(View()))
    {
      hide Link.CountCompleted;
      CountCompleted();
      connectedAt := Some(now);
      replacing := false;
      settingUp, busyAt := false, None;
    }

    method CountCompleted()
      modifies this`authFailures, this`outcomes, this`history
      ensures View() == Link.CountCompleted(old(View()))
    {
      authFailures := 0;
      outcomes := outcomes + [Link.Completed];
      history := history + [LinkHistory.CameUp(now)];
    }

    /** And what the setup, or `_raise_link`, makes of it: a link that is already gone is closed. */
    method ConnectReturned(settingUp: bool)
      requires settingUp == this.settingUp
      modifies this`sock, this`registeredAt, this`connectedAt, this`replacing, this`attempt, this`authFailures,
               this`immediate, this`changed, this`pc, this`settingUp, this`busyAt, this`notes, this`history,
               this`outcomes
      ensures View() == Link.ConnectDone(old(View()))
    {
      hide Link.Close, Link.Loop, Link.Connected;
      HandshakeDone();
      if settingUp || Available() {
        Supervise();
      } else {
        Close(Link.ClosingDead);
      }
    }

    /** `session.close()`, and what follows if it comes back at once. */
    method Close(next: Link.Pc)
      requires Link.InClose(next) && (next.ClosingFailed? ==> !settingUp)
      modifies this`sock, this`registeredAt, this`connectedAt, this`replacing, this`attempt, this`authFailures,
               this`immediate, this`changed, this`pc, this`settingUp, this`busyAt, this`notes, this`history,
               this`outcomes
      ensures View() == Link.Close(old(View()), next)
    {
      hide Link.AfterClose;
      pc := next;
      if IsConnected() {
        sock := Link.Closing;
      } else {
        registeredAt := if sock.Down? then None else registeredAt;
        CloseReturned(next);
      }
    }

    /** What follows when the session has been closed. */
    method CloseReturned(from: Link.Pc)
      requires pc == from && Link.InClose(from) && (from.ClosingFailed? ==> !settingUp)
      modifies this`connectedAt, this`replacing, this`attempt, this`authFailures, this`immediate, this`changed, this`pc,
               this`notes, this`history, this`outcomes
      ensures View() == Link.AfterClose(old(View()))
    {
      hide Link.Loop, Link.LowerLink, Link.ConnectFailed;
      match from {
        case Dropping(_) => Dropped();
        case Recycling(began) => Recycled(began);
        case ClosingFailed(failure) => ConnectFailed(failure);
        case ClosingDead => FoundDead();
      }
    }

    /** The end of `_drop_connection`. */
    method Dropped()
      modifies this`connectedAt, this`replacing, this`attempt, this`immediate, this`changed, this`pc, this`notes,
               this`history
      ensures View() == Link.Loop(if stopping then old(View())
                                  else Link.LowerLink(old(View()), LinkHistory.Dropped(now), false, false))
    {
      hide Link.Loop, Link.LowerLink;
      if !stopping {
        LowerLink(LinkHistory.Dropped(now), false, false);
      }
      Supervise();
    }

    /** The end of `_recycle_if_stale`. */
    method Recycled(ghost began: real)
      modifies this`connectedAt, this`replacing, this`attempt, this`immediate, this`changed, this`pc, this`notes,
               this`history
      ensures View() == Link.Loop(Link.LowerLink(old(View()), LinkHistory.Recycled(now, began), true, true))
    {
      hide Link.Loop, Link.LowerLink;
      LowerLink(LinkHistory.Recycled(now, began), true, true);
      Supervise();
    }

    /** The end of `_raise_link` for a link that did not survive its handshake. */
    method FoundDead()
      modifies this`connectedAt, this`attempt, this`immediate, this`changed, this`pc, this`notes, this`history
      ensures View() == Link.Loop(Link.FoundDead(old(View())))
    {
      hide Link.Loop;
      connectedAt := None;
      history := history + [LinkHistory.Died];
      Notify(false);
      Supervise();
    }

    // -------------------------------------------------------------- the watchdog

    /** `_recycle_if_stale`, with the time its pass began. */
    method RecycleIfStale(began: real, busy: bool)
      modifies this`sock, this`registeredAt, this`connectedAt, this`replacing, this`attempt, this`authFailures,
               this`immediate, this`changed, this`pc, this`settingUp, this`busyAt, this`notes, this`history,
               this`outcomes
      ensures View() == Link.RecycleStage(old(View()), began, busy)
    {
      hide Link.Loop, Link.Close;
      if connectedAt.None? || began - connectedAt.value < LinkHistory.CONNECTION_MAX_AGE {
        Supervise();
      } else if busy {
        busyAt := Some(began);
        Supervise();
      } else {
        Close(Link.Recycling(began));
      }
    }

    /** `_watchdog_pass` up to its first await; what it has to wait for, if anything. */
    method WatchdogPass(silent: bool, busy: bool)
      modifies this`sock, this`registeredAt, this`connectedAt, this`replacing, this`attempt, this`authFailures,
               this`immediate, this`changed, this`pc, this`settingUp, this`busyAt, this`notes, this`history,
               this`outcomes
      ensures View() == Link.Pass(old(View()), silent, busy)
    {
      hide Link.Loop, Link.Close, Link.RecycleStage;
      if stopping {
        pc := Link.Stopped;
      } else if !IsConnected() {
        Supervise();
      } else if registeredAt.None? {
        Close(Link.Dropping(now));
      } else if now - registeredAt.value >= Link.REGISTRATION_REFRESH {
        pc := Link.Registering(now);
      } else if silent {
        pc := Link.Probing(now);
      } else {
        RecycleIfStale(now, busy);
      }
    }

    /** The rest of the pass once a renewal has come back. */
    method RenewalReturned(began: real, ok: bool, silent: bool, busy: bool)
      requires pc == Link.Registering(began)
      modifies this`sock, this`registeredAt, this`connectedAt, this`replacing, this`attempt, this`authFailures,
               this`immediate, this`changed, this`pc, this`settingUp, this`busyAt, this`notes, this`history,
               this`outcomes
      ensures View() == Link.Apply(old(View()), Link.RenewalReturns(ok, silent, busy))
    {
      hide Link.Close, Link.RecycleStage;
      registeredAt := if ok then Some(now) else None;
      if !ok {
        Close(Link.Dropping(began));
      } else if silent {
        pc := Link.Probing(began);
      } else {
        RecycleIfStale(began, busy);
      }
    }

    /** And once a probe has: a panel that does not answer is dropped. */
    method ProbeReturned(began: real, ok: bool, busy: bool)
      requires pc == Link.Probing(began)
      modifies this`sock, this`registeredAt, this`connectedAt, this`replacing, this`attempt, this`authFailures,
               this`immediate, this`changed, this`pc, this`settingUp, this`busyAt, this`notes, this`history,
               this`outcomes
      ensures View() == Link.Apply(old(View()), Link.ProbeReturns(ok, busy))
    {
      hide Link.Close, Link.RecycleStage;
      if ok {
        RecycleIfStale(began, busy);
      } else {
        Close(Link.Dropping(began));
      }
    }

    // -------------------------------------------------------------- resumptions

    /** The awaits whose return this object answers. */
    static predicate Answered(step: Link.Step) {
      || step.ConnectReturns? || step.Wakes? || step.RenewalReturns? || step.ProbeReturns? || step.CloseReturns?
      || step.LossEnds? || step.CallAbandoned? || step.BackoffOver?
    }

    /** The supervisor, or the reader that tore the connection down, resumes: a step of the link's machine, after which
        the object is still sound. A setup that fails has no supervisor to go back to. */
    method Resumes(step: Link.Step, at: Link.Pc, settingUp: bool)
      requires Sound() && Answered(step) && Link.Enabled(View(), step) && at == pc && settingUp == this.settingUp
      requires step.CloseReturns? && at.ClosingFailed? ==> !settingUp
      modifies this`sock, this`registeredAt, this`connectedAt, this`replacing, this`attempt, this`authFailures,
               this`immediate, this`changed, this`pc, this`settingUp, this`busyAt, this`notes, this`history,
               this`outcomes
      ensures Sound() && View() == Link.Apply(old(View()), step)
    {
      hide Link.Timely, Link.CountsOk;
      Link.StepAgrees(View(), step);
      Link.StepTimely(View(), step);
      Link.StepCounts(View(), step);
      assert step.CloseReturns? ==> Link.InClose(pc);
      hide Link.Agrees, Link.Places;
      DoStep(step, at, settingUp);
    }

    method DoStep(step: Link.Step, at: Link.Pc, settingUp: bool)
      requires Answered(step) && Link.Enabled(View(), step) && at == pc && settingUp == this.settingUp
      requires step.CloseReturns? ==> Link.InClose(at) && (at.ClosingFailed? ==> !settingUp)
      modifies this`sock, this`registeredAt, this`connectedAt, this`replacing, this`attempt, this`authFailures,
               this`immediate, this`changed, this`pc, this`settingUp, this`busyAt, this`notes, this`history,
               this`outcomes
      ensures View() == Link.Apply(old(View()), step)
    {
      hide Link.ConnectDone, Link.Pass, Link.RecycleStage, Link.Close, Link.AfterClose, Link.LowerLink,
           Link.BeginConnect;
      match step {
        case ConnectReturns => ConnectReturned(settingUp);
        case Wakes(silent, busy) => WatchdogPass(silent, busy);
        case RenewalReturns(ok, silent, busy) => RenewalReturned(at.began, ok, silent, busy);
        case ProbeReturns(ok, busy) => ProbeReturned(at.began, ok, busy);
        case CloseReturns =>
          sock, registeredAt := Link.Down, None;
          CloseReturned(at);
        case LossEnds => OnDisconnect();
        case CallAbandoned => CallAbandoned(at.delay);
        case BackoffOver => BeginConnect();
      }
    }

    // -------------------------------------------------------------- calls

    function IsEntranceCall(e: Calls.RingEvent): (entrance: bool)
      reads this
      ensures entrance == Captures.IsEntranceCall(CaptureView(), e)
    {
      if e.tag == TAG_FLOOR_CALL then false
      else if e.tag == TAG_ENTRANCE then true
      else entrances.Some? && e.origin in entrances.value
    }

    /** A ring: everybody hears of it, and what kind it is; only an entrance's is remembered, and may owe captures. */
    method OnRing(ghost call: nat, e: Calls.RingEvent, received: real)
      modifies this`capturesOwed, this`promised, this`events, this`lastRing
      ensures CaptureView() == Captures.OnRing(old(CaptureView()), call, e)
      ensures var entrance := Captures.FromEntrance(entrances, e);
              && capturesOwed == (if entrance && (snapshotOnRing || recordOnRing)
                                  then old(capturesOwed)[e.connection := e.origin] else old(capturesOwed))
              && events == old(events) + [Rang(entrance, e.caller, e.callee, e.origin, e.tag, e.body, received)]
              && lastRing == if entrance then Some(received) else old(lastRing)
    {
      var entrance := IsEntranceCall(e);
      if entrance {
        lastRing := Some(received);
      }
      events := events + [Rang(entrance, e.caller, e.callee, e.origin, e.tag, e.body, received)];
      if entrance && (snapshotOnRing || recordOnRing) {
        capturesOwed := capturesOwed[e.connection := e.origin];
        promised := promised + {call};
      }
    }

    /** The end of a call: everybody hears of it, with its cause; and the captures it starts, towards which entrance. */
    method OnCallEnd(ghost call: nat, e: Calls.RingEvent, cause: Option<byte>) returns (target: Option<string>)
      modifies this`capturesOwed, this`started, this`events
      ensures CaptureView() == Captures.OnCallEnd(old(CaptureView()), call, e)
      ensures events == old(events) + [Ended(e.caller, e.origin, cause)]
      ensures target == if e.connection in old(capturesOwed) then Some(old(capturesOwed)[e.connection]) else None
    {
      events := events + [Ended(e.caller, e.origin, cause)];
      target := None;
      if e.connection in capturesOwed {
        target := Some(capturesOwed[e.connection]);
        capturesOwed := capturesOwed - {e.connection};
        started := started + Captures.Started(CaptureView(), call, target.value);
      }
    }
  }
}
