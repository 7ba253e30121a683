/** The supervisor of the connection (hub.py): backoff, the lease and its renewal, planned replacement, and what the
    entities are told.

    A step is what the supervisor, or the session's reader when it loses the link, does between two awaits; waiting for
    the panel, and time passing, are steps too. A step that is not possible where it stands does nothing. Handshakes,
    renewals and probes fail only with ViperError or OSError, and a connection is not attempted while the teardown of
    the one before is still going on. */
module Link {
  import opened Bytes
  import opened LinkHistory

  const AUTH_FAILURES_BEFORE_REAUTH := 3
  const WATCHDOG_INTERVAL := 60.0
  const REGISTRATION_REFRESH := REGISTRATION_TTL / 4.0

  /** The session's socket; a teardown is under way because the reader lost the link, or because the hub closes it. */
  datatype Sock = Down | Up | Losing | Closing

  datatype Failure = AuthRefused | LinkError

  /** Where the supervisor (or the setup) is suspended. */
  datatype Pc =
    | Waiting(deadline: real)
    | Registering(began: real)
    | Probing(began: real)
    | Dropping(began: real)
    | Recycling(began: real)
    | Abandoning(delay: real)
    | BackingOff(until: real)
    | Connecting(isOpen: bool, shook: Option<real>)
    | ClosingFailed(failure: Failure)
    | ClosingDead
    | GaveUp
    | Stopped

  /** How an attempt to connect ended. */
  datatype Outcome = Refused | Failed | Completed

  datatype Hub = Hub(
    now: real,
    limit: real,                  // how long a pass of the watchdog takes at most
    sock: Sock,
    registeredAt: Option<real>,
    pc: Pc,
    settingUp: bool,
    connectedAt: Option<real>,
    replacing: bool,
    attempt: nat,
    authFailures: nat,
    immediate: bool,
    changed: bool,
    stopping: bool,
    busyAt: Option<real>,         // when the latest pass began that found this connection due but in use
    notes: seq<bool>,             // the "connection" notifications
    history: seq<Mark>,           // what happened to the connection
    outcomes: seq<Outcome>)

  function Fresh(limit: real): Hub {
    Hub(0.0, limit, Down, None, Connecting(false, None), true, None, false, 0, 0, false, false, false, None,
        [], [], [])
  }

  predicate Available(h: Hub) {
    (h.sock.Up? && h.registeredAt.Some?) || h.replacing
  }

  /** What the entities were last told; before anything was said they take the link to be down. */
  predicate LastNote(h: Hub) {
    h.notes != [] && h.notes[|h.notes| - 1]
  }

  // ---------------------------------------------------------------- operations

  function Note(h: Hub, up: bool): Hub {
    h.(notes := h.notes + [up])
  }

  /** A connection that lasted starts the backoff over. */
  function EndLifetime(h: Hub): (r: Hub)
    ensures r.limit == h.limit && r == h.(attempt := r.attempt, history := r.history, connectedAt := None)
  {
    var lifetime := if h.connectedAt.Some? then h.now - h.connectedAt.value else 0.0;
    if h.connectedAt.Some? && lifetime >= STABLE_CONNECTION then
      h.(attempt := 0, history := h.history + [Lasted(lifetime)], connectedAt := None)
    else h.(connectedAt := None)
  }

  function Lowering(h: Hub, why: Mark, quiet: bool): (r: Hub)
    ensures r.limit == h.limit && r.busyAt == h.busyAt
  {
    (if quiet then h else Note(h, false)).(history := h.history + [why])
  }

  /** _lower_link, and what it was called for. */
  function LowerLink(h: Hub, why: Mark, immediate: bool, quiet: bool): (r: Hub)
    ensures r.limit == h.limit && r.busyAt == h.busyAt
  {
    EndLifetime(Lowering(h, why, quiet)).(replacing := quiet, immediate := immediate, changed := true)
  }

  /** _report_down */
  function ReportDown(h: Hub): (r: Hub)
    ensures r.limit == h.limit && r.busyAt == h.busyAt
  {
    if h.replacing then Note(h.(replacing := false), false) else h
  }

  /** _raise_link up to its first await. */
  function RaiseLink(h: Hub): (r: Hub)
    ensures r.limit == h.limit && r.busyAt == h.busyAt
  {
    if h.immediate then
      h.(immediate := false, attempt := 0, history := h.history + [AtOnce(h.now)], pc := Abandoning(0.0))
    else
      h.(attempt := h.attempt + 1, history := h.history + [Delay(Backoff(h.attempt), h.now)],
         pc := Abandoning(Backoff(h.attempt)))
  }

  /** The top of the supervisor's loop. */
  function Loop(h: Hub): (r: Hub)
    ensures r.limit == h.limit && r.busyAt == h.busyAt
  {
    if h.stopping then h.(pc := Stopped)
    else if h.sock.Up? then h.(pc := Waiting(h.now + WATCHDOG_INTERVAL), changed := false)
    else RaiseLink(h)
  }

  /** What follows when an attempt to connect has failed. */
  function ConnectFailed(h: Hub, failure: Failure): (r: Hub)
    ensures r.limit == h.limit && r.busyAt == h.busyAt
  {
    if h.settingUp then h.(pc := Stopped)
    else match failure
      case LinkError => Loop(ReportDown(h).(outcomes := h.outcomes + [Failed]))
      case AuthRefused =>
        var counted := CountRefusal(ReportDown(h));
        if counted.authFailures < AUTH_FAILURES_BEFORE_REAUTH then Loop(counted) else counted.(pc := GaveUp)
  }

  function CountRefusal(h: Hub): (r: Hub)
    ensures r.limit == h.limit && r.busyAt == h.busyAt
  {
    h.(authFailures := h.authFailures + 1, outcomes := h.outcomes + [Refused])
  }

  /** What follows when the session has been closed. */
  function AfterClose(h: Hub): (r: Hub)
    ensures r.limit == h.limit && r.busyAt == h.busyAt
  {
    match h.pc
    case Dropping(_) => Loop(if h.stopping then h else LowerLink(h, Dropped(h.now), false, false))
    case Recycling(began) => Loop(LowerLink(h, Recycled(h.now, began), true, true))
    case ClosingFailed(failure) => ConnectFailed(h, failure)
    case ClosingDead => Loop(FoundDead(h))
    case _ => h
  }

  /** A link that is already down again when its connect comes back. */
  function FoundDead(h: Hub): (r: Hub)
    ensures r.limit == h.limit && r.busyAt == h.busyAt
  {
    Note(h.(connectedAt := None, history := h.history + [Died]), false)
  }

  /** session.close(): it comes back at once if there is nothing to close or another teardown is under way. */
  function Close(h: Hub, pc: Pc): (r: Hub)
    ensures r.limit == h.limit && r.busyAt == h.busyAt
  {
    if h.sock.Up? then h.(sock := Closing, pc := pc)
    else AfterClose(h.(pc := pc, registeredAt := if h.sock.Down? then None else h.registeredAt))
  }

  /** _connect, from the end of its handshake on. */
  function Connected(h: Hub): (r: Hub)
    ensures r.limit == h.limit
  {
    Note(Renewed(h), Available(Renewed(h)))
  }

  function Renewed(h: Hub): (r: Hub)
    ensures r.limit == h.limit
  {
    CountCompleted(h).(connectedAt := Some(h.now), replacing := false, busyAt := None, settingUp := false)
  }

  function CountCompleted(h: Hub): (r: Hub)
    ensures r.limit == h.limit
  {
    h.(authFailures := 0, outcomes := h.outcomes + [Completed], history := h.history + [CameUp(h.now)])
  }

  /** And what its caller makes of it. */
  function ConnectDone(h: Hub): (r: Hub)
    ensures r.limit == h.limit && r.busyAt == None
  {
    var told := Connected(h);
    if h.settingUp || Available(told) then Loop(told) else Close(told, ClosingDead)
  }

  /** _recycle_if_stale; `began` is the time read when the pass began. */
  function RecycleStage(h: Hub, began: real, busy: bool): (r: Hub)
    ensures r.limit == h.limit
  {
    if h.connectedAt.None? || began - h.connectedAt.value < CONNECTION_MAX_AGE then Loop(h)
    else if busy then Loop(h.(busyAt := Some(began)))
    else Close(h, Recycling(began))
  }

  function ProbeStage(h: Hub, began: real, silent: bool, busy: bool): (r: Hub)
    ensures r.limit == h.limit
  {
    if silent then h.(pc := Probing(began)) else RecycleStage(h, began, busy)
  }

  /** _watchdog_pass up to its first await. */
  function Pass(h: Hub, silent: bool, busy: bool): (r: Hub)
    ensures r.limit == h.limit
  {
    if h.stopping then h.(pc := Stopped)
    else if !h.sock.Up? then Loop(h)
    else if h.registeredAt.None? then Close(h, Dropping(h.now))
    else if h.now - h.registeredAt.value < REGISTRATION_REFRESH then ProbeStage(h, h.now, silent, busy)
    else h.(pc := Registering(h.now))
  }

  // ---------------------------------------------------------------- steps

  /** `silent`: the panel has been silent for long enough to be probed; `busy`: a call is up or somebody watches. */
  datatype Step =
    | SocketOpens
    | Registers
    | ConnectFails(failure: Failure)
    | ConnectReturns
    | Wakes(silent: bool, busy: bool)
    | RenewalReturns(ok: bool, silent: bool, busy: bool)
    | ProbeReturns(ok: bool, busy: bool)
    | CloseReturns
    | CallAbandoned
    | BackoffOver
    | LossBegins
    | LossEnds
    | ShutsDown
    | Tick(seconds: real)

  /** Time goes on while a task waits, but not past the end of its wait, nor of a watchdog pass, nor (by more than as
      long again) of a handshake that has registered. */
  predicate TimeAllows(h: Hub, t: real) {
    match h.pc
    case Waiting(deadline) => t <= deadline
    case Registering(began) => t <= began + h.limit
    case Probing(began) => t <= began + h.limit
    case Dropping(began) => t <= began + h.limit
    case Recycling(began) => t <= began + h.limit
    case Connecting(_, Some(shook)) => t <= shook + h.limit
    case _ => true
  }

  predicate Enabled(h: Hub, step: Step) {
    match step
    case SocketOpens => h.pc.Connecting? && !h.pc.isOpen && h.sock.Down?
    case Registers => h.pc.Connecting? && h.pc.isOpen && h.pc.shook.None?
    case ConnectFails(_) => h.pc.Connecting? && h.pc.shook.None?
    case ConnectReturns => h.pc.Connecting? && h.pc.shook.Some?
    case Wakes(_, _) => h.pc.Waiting? && (h.changed || h.now >= h.pc.deadline)
    case RenewalReturns(_, _, _) => h.pc.Registering?
    case ProbeReturns(_, _) => h.pc.Probing?
    case CloseReturns => h.sock.Closing?
    case CallAbandoned => h.pc.Abandoning? && (h.pc.delay > 0.0 || h.sock.Down?)
    case BackoffOver => h.pc.BackingOff? && h.now >= h.pc.until && h.sock.Down?
    case LossBegins => h.sock.Up?
    case LossEnds => h.sock.Losing?
    case ShutsDown => true
    case Tick(d) => d >= 0.0 && TimeAllows(h, h.now + d)
  }

  function BeginConnect(h: Hub): (r: Hub)
    ensures r.limit == h.limit && r.busyAt == h.busyAt
  {
    if h.stopping then Loop(h) else h.(pc := Connecting(false, None), history := h.history + [Attempt(h.now)])
  }

  function Apply(h: Hub, step: Step): (r: Hub)
    ensures r.limit == h.limit
  {
    if !Enabled(h, step) then h
    else match step
      case SocketOpens => h.(sock := Up, registeredAt := None, pc := Connecting(true, None))
      case Registers => h.(registeredAt := Some(h.now), pc := Connecting(true, Some(h.now)))
      case ConnectFails(failure) =>
        if h.pc.isOpen then Close(h, ClosingFailed(failure)) else ConnectFailed(h, failure)
      case ConnectReturns => ConnectDone(h)
      case Wakes(silent, busy) => Pass(h, silent, busy)
      case RenewalReturns(ok, silent, busy) =>
        if ok then ProbeStage(h.(registeredAt := Some(h.now)), h.pc.began, silent, busy)
        else Close(h.(registeredAt := None), Dropping(h.pc.began))
      case ProbeReturns(ok, busy) =>
        if ok then RecycleStage(h, h.pc.began, busy) else Close(h, Dropping(h.pc.began))
      case CloseReturns => AfterClose(h.(sock := Down, registeredAt := None))
      case CallAbandoned => if h.pc.delay > 0.0 then h.(pc := BackingOff(h.now + h.pc.delay)) else BeginConnect(h)
      case BackoffOver => BeginConnect(h)
      case LossBegins => h.(sock := Losing)
      case LossEnds =>
        var lost := h.(sock := Down, registeredAt := None);
        if h.stopping then lost else LowerLink(lost, Lost(h.now), false, false)
      case ShutsDown => h.(stopping := true, pc := Stopped, sock := Down, registeredAt := None)
      case Tick(d) => h.(now := h.now + d)
  }

  function Exec(limit: real, steps: seq<Step>): Hub {
    if steps == [] then Fresh(limit) else Apply(Exec(limit, steps[..|steps| - 1]), steps[|steps| - 1])
  }

  // ---------------------------------------------------------------- what the entities are told

  predicate Serving(pc: Pc) {
    pc.Waiting? || pc.Registering? || pc.Probing?
  }

  predicate InClose(pc: Pc) {
    pc.Dropping? || pc.Recycling? || pc.ClosingFailed? || pc.ClosingDead?
  }

  /** Which task a socket in each state belongs to. */
  predicate Places(h: Hub) {
    && (h.sock.Up? ==> Serving(h.pc) || (h.pc.Connecting? && h.pc.isOpen))
    && (h.sock.Closing? <==> InClose(h.pc))
    && (h.settingUp ==> h.pc.Connecting? || h.pc.ClosingFailed? || h.pc.Stopped?)
    && (h.pc.Connecting? && h.pc.shook.Some? ==> h.pc.isOpen && (h.sock.Up? ==> h.registeredAt == h.pc.shook))
    && (h.stopping ==> h.pc.Stopped?)
    && (Serving(h.pc) && h.sock.Up? ==> h.registeredAt.Some? && h.connectedAt.Some?)
    && (Serving(h.pc) && h.sock.Down? ==> h.connectedAt.None?)
    && (h.pc.Recycling? ==> h.connectedAt.Some?)
    && (h.pc.Waiting? && h.sock.Down? ==> h.changed)
  }

  /** What the last notification has to do with the state; nothing while the reader tears down, since the notification
      then is still to come. */
  predicate Told(h: Hub) {
    match h.sock
    case Losing => true
    case Up => if Serving(h.pc) then LastNote(h) && !h.replacing else LastNote(h) == h.replacing
    case Down => LastNote(h) == h.replacing
    case Closing =>
      if h.pc.Recycling? then LastNote(h) && !h.replacing
      else if h.pc.ClosingFailed? then LastNote(h) == h.replacing
      else if h.pc.ClosingDead? then !h.replacing
      else true
  }

  ghost predicate Agrees(h: Hub) {
    Places(h) && (!h.stopping ==> Told(h))
  }

  lemma LoopAgrees(h: Hub)
    requires !h.stopping && !h.sock.Closing? && !h.settingUp
    requires h.sock.Up? ==> LastNote(h) && !h.replacing && h.registeredAt.Some? && h.connectedAt.Some?
    requires h.sock.Down? ==> LastNote(h) == h.replacing
    ensures Agrees(Loop(h))
  {
  }

  /** A close that comes back, or did not have to wait. */
  lemma AfterCloseAgrees(h: Hub)
    requires !h.stopping && InClose(h.pc) && (h.sock.Down? || h.sock.Losing?)
    requires h.settingUp ==> h.pc.ClosingFailed?
    requires h.pc.Recycling? && h.sock.Down? ==> LastNote(h) && !h.replacing
    requires h.pc.ClosingFailed? && h.sock.Down? ==> LastNote(h) == h.replacing
    requires h.pc.ClosingDead? ==> !h.replacing
    ensures Agrees(AfterClose(h))
  {
    hide Loop, Agrees, EndLifetime;
    match h.pc
    case Dropping(_) => LoopAgrees(LowerLink(h, Dropped(h.now), false, false));
    case Recycling(began) => LoopAgrees(LowerLink(h, Recycled(h.now, began), true, true));
    case ClosingFailed(failure) => ConnectFailedAgrees(h, failure);
    case ClosingDead => LoopAgrees(FoundDead(h));
  }

  lemma ConnectFailedAgrees(h: Hub, failure: Failure)
    requires !h.stopping && (h.sock.Down? || h.sock.Losing?)
    requires h.sock.Down? ==> LastNote(h) == h.replacing
    ensures Agrees(ConnectFailed(h, failure))
  {
    if !h.settingUp {
      match failure {
        case LinkError => LoopAgrees(ReportDown(h).(outcomes := h.outcomes + [Failed]));
        case AuthRefused =>
          LoopAgrees(CountRefusal(ReportDown(h)));
      }
    }
  }

  lemma CloseAgrees(h: Hub, pc: Pc)
    requires !h.stopping && InClose(pc) && !h.sock.Closing?
    requires h.settingUp ==> pc.ClosingFailed?
    requires pc.Recycling? ==> h.connectedAt.Some? && (!h.sock.Losing? ==> LastNote(h) && !h.replacing)
    requires pc.ClosingFailed? && !h.sock.Losing? ==> LastNote(h) == h.replacing
    requires pc.ClosingDead? ==> !h.replacing
    ensures Agrees(Close(h, pc))
  {
    hide AfterClose;
    if !h.sock.Up? {
      AfterCloseAgrees(h.(pc := pc, registeredAt := if h.sock.Down? then None else h.registeredAt));
    }
  }

  lemma ConnectDoneAgrees(h: Hub)
    requires Agrees(h) && !h.stopping && h.pc.Connecting? && h.pc.shook.Some?
    ensures Agrees(ConnectDone(h))
  {
    var told := Connected(h);
    assert Places(h) && Told(h);
    hide Close, Loop, Agrees;
    if h.settingUp || Available(told) {
      LoopAgrees(told);
    } else {
      CloseAgrees(told, ClosingDead);
    }
  }

  lemma RecycleStageAgrees(h: Hub, began: real, busy: bool)
    requires !h.stopping && !h.settingUp && !h.sock.Closing?
    requires h.sock.Up? ==> LastNote(h) && !h.replacing && h.registeredAt.Some? && h.connectedAt.Some?
    requires h.sock.Down? ==> LastNote(h) == h.replacing && h.connectedAt.None?
    ensures Agrees(RecycleStage(h, began, busy))
  {
    hide Close, Loop, Agrees;
    if h.connectedAt.None? || began - h.connectedAt.value < CONNECTION_MAX_AGE {
      LoopAgrees(h);
    } else if busy {
      LoopAgrees(h.(busyAt := Some(began)));
    } else {
      CloseAgrees(h, Recycling(began));
    }
  }

  lemma PassAgrees(h: Hub, silent: bool, busy: bool)
    requires Agrees(h) && h.pc.Waiting?
    ensures Agrees(Pass(h, silent, busy))
  {
    hide Loop, RecycleStage, Close;
    if !h.sock.Up? {
      LoopAgrees(h);
    } else if h.now - h.registeredAt.value < REGISTRATION_REFRESH && !silent {
      RecycleStageAgrees(h, h.now, busy);
    }
  }

  lemma BeginConnectAgrees(h: Hub)
    requires Agrees(h) && h.sock.Down? && (h.pc.Abandoning? || h.pc.BackingOff?)
    ensures Agrees(BeginConnect(h))
  {
  }

  lemma StepAgrees(h: Hub, step: Step)
    requires Agrees(h)
    ensures Agrees(Apply(h, step))
  {
    hide Close, AfterClose, ConnectFailed, ConnectDone, RecycleStage, Pass, BeginConnect;
    if Enabled(h, step) {
      match step
      case ConnectFails(failure) =>
        if h.pc.isOpen { CloseAgrees(h, ClosingFailed(failure)); } else { ConnectFailedAgrees(h, failure); }
      case ConnectReturns => ConnectDoneAgrees(h);
      case Wakes(silent, busy) => PassAgrees(h, silent, busy);
      case RenewalReturns(ok, silent, busy) =>
        if !ok {
          CloseAgrees(h.(registeredAt := None), Dropping(h.pc.began));
        } else if !silent {
          RecycleStageAgrees(h.(registeredAt := Some(h.now)), h.pc.began, busy);
        }
      case ProbeReturns(ok, busy) =>
        if ok { RecycleStageAgrees(h, h.pc.began, busy); } else { CloseAgrees(h, Dropping(h.pc.began)); }
      case CloseReturns => AfterCloseAgrees(h.(sock := Down, registeredAt := None));
      case _ => OtherStepAgrees(h, step);
    }
  }

  lemma OtherStepAgrees(h: Hub, step: Step)
    requires Agrees(h) && Enabled(h, step)
    requires step.SocketOpens? || step.Registers? || step.CallAbandoned? || step.BackoffOver? || step.LossBegins?
             || step.LossEnds? || step.ShutsDown? || step.Tick?
    ensures Agrees(Apply(h, step))
  {
    hide BeginConnect, EndLifetime;
    match step
    case CallAbandoned => if !(h.pc.delay > 0.0) { BeginConnectAgrees(h); }
    case BackoffOver => BeginConnectAgrees(h);
    case _ =>
  }

  lemma {:induction false} AlwaysAgrees(limit: real, steps: seq<Step>)
    ensures Agrees(Exec(limit, steps))
  {
    if steps != [] {
      AlwaysAgrees(limit, steps[..|steps| - 1]);
      StepAgrees(Exec(limit, steps[..|steps| - 1]), steps[|steps| - 1]);
    }
  }

  /** No handshake is going on, and no teardown. */
  predicate Settled(h: Hub) {
    !h.stopping && !h.pc.Connecting? && (h.sock.Up? || h.sock.Down?)
  }

  /** Whatever was lost, dropped, replaced or retried on the way: whenever neither a handshake nor a teardown is going
      on, what the entities were last told is the truth. */
  lemma ListenersAgree(limit: real, steps: seq<Step>)
    requires Settled(Exec(limit, steps))
    ensures LastNote(Exec(limit, steps)) == Available(Exec(limit, steps))
  {
    AlwaysAgrees(limit, steps);
  }

  /** A loss never finds the supervisor asleep for good: once the teardown is over it can wake, before its interval is
      up. */
  lemma LossWakesSupervisor(limit: real, steps: seq<Step>, silent: bool, busy: bool)
    requires var h := Exec(limit, steps); h.pc.Waiting? && h.sock.Down?
    ensures Enabled(Exec(limit, steps), Wakes(silent, busy))
    ensures Apply(Exec(limit, steps), Wakes(silent, busy)).pc.Abandoning?
  {
    AlwaysAgrees(limit, steps);
  }

  // ---------------------------------------------------------------- planned replacement

  function Run(h: Hub, steps: seq<Step>): Hub {
    if steps == [] then h else Apply(Run(h, steps[..|steps| - 1]), steps[|steps| - 1])
  }

  /** A step that goes well. */
  predicate Benign(step: Step) {
    match step
    case ConnectFails(_) => false
    case RenewalReturns(ok, _, _) => ok
    case ProbeReturns(ok, _) => ok
    case LossBegins => false
    case ShutsDown => false
    case _ => true
  }

  /** The course of a planned replacement, and of the service before and after it. */
  predicate Smooth(h: Hub) {
    && !h.stopping && !h.settingUp
    && match h.sock
       case Up =>
         if Serving(h.pc) then h.registeredAt.Some? && h.connectedAt.Some? && !h.replacing
         else h.pc.Connecting? && h.replacing && (h.pc.shook.Some? ==> h.registeredAt.Some?)
       case Down =>
         h.replacing && (h.pc.Abandoning? || h.pc.BackingOff? || (h.pc.Connecting? && !h.pc.isOpen && h.pc.shook.None?))
       case Closing => h.pc.Recycling? && !h.replacing
       case Losing => false
  }

  /** A step after which the course goes on, with no more notified than that the link is up. */
  predicate GoesOn(h: Hub, r: Hub) {
    Smooth(r) && (r.notes == h.notes || r.notes == h.notes + [true])
  }

  lemma SmoothStep(h: Hub, step: Step)
    requires Smooth(h) && Benign(step)
    ensures GoesOn(h, Apply(h, step))
  {
    hide Backoff, RecycleStage, Close, AfterClose, ConnectDone, Loop, LowerLink;
    if Enabled(h, step) {
      match step {
        case Wakes(silent, busy) => SmoothRecycle(h, h.now, busy);
        case RenewalReturns(ok, silent, busy) => SmoothRecycle(h.(registeredAt := Some(h.now)), h.pc.began, busy);
        case ProbeReturns(ok, busy) => SmoothRecycle(h, h.pc.began, busy);
        case CloseReturns => SmoothClosed(h);
        case ConnectReturns => SmoothConnected(h);
        case _ =>
      }
    }
  }

  lemma SmoothConnected(h: Hub)
    requires Smooth(h) && Enabled(h, ConnectReturns)
    ensures GoesOn(h, ConnectDone(h))
  {
  }

  lemma SmoothClosed(h: Hub)
    requires Smooth(h) && h.sock.Closing?
    ensures var r := AfterClose(h.(sock := Down, registeredAt := None)); Smooth(r) && r.notes == h.notes
  {
  }

  lemma SmoothRecycle(h: Hub, began: real, busy: bool)
    requires Smooth(h) && h.sock.Up? && Serving(h.pc)
    ensures Smooth(RecycleStage(h, began, busy)) && RecycleStage(h, began, busy).notes == h.notes
  {
  }

  /** From the start of a planned replacement on, for as long as every step goes well, the hub stays available except
      while it closes a connection on purpose, and the entities hear of nothing but up. */
  lemma {:induction false} ReplacementIsSilent(h: Hub, steps: seq<Step>)
    requires Smooth(h) && forall i :: 0 <= i < |steps| ==> Benign(steps[i])
    ensures var t := Run(h, steps);
            && (t.sock.Closing? || Available(t))
            && |h.notes| <= |t.notes| && t.notes[..|h.notes|] == h.notes
            && (forall i :: |h.notes| <= i < |t.notes| ==> t.notes[i])
            && Smooth(t)
  {
    if steps != [] {
      ReplacementIsSilent(h, steps[..|steps| - 1]);
      SmoothStep(Run(h, steps[..|steps| - 1]), steps[|steps| - 1]);
    }
  }

  /** Every planned replacement that begins is the start of such a course. */
  lemma ReplacementBeginsSmooth(limit: real, steps: seq<Step>)
    requires Exec(limit, steps).pc.Recycling? && !Exec(limit, steps).stopping
    ensures Smooth(Exec(limit, steps))
  {
    AlwaysAgrees(limit, steps);
  }

  // ---------------------------------------------------------------- the lease

  const OVERDUE := REGISTRATION_REFRESH + WATCHDOG_INTERVAL
  const OUTDATED := CONNECTION_MAX_AGE + WATCHDOG_INTERVAL

  /** How far behind a registration may be, at each point of the watchdog's round. */
  predicate LeaseOk(h: Hub) {
    && h.limit >= 0.0
    && match h.pc
       case Waiting(deadline) =>
         h.now <= deadline
         && (h.sock.Up? && h.registeredAt.Some? ==> deadline - h.registeredAt.value < OVERDUE + h.limit)
       case Registering(began) =>
         && began <= h.now <= began + h.limit
         && (h.sock.Up? && h.registeredAt.Some? ==> began - h.registeredAt.value < OVERDUE + h.limit)
       case Probing(began) =>
         && began <= h.now <= began + h.limit
         && (h.sock.Up? && h.registeredAt.Some? ==> began - h.registeredAt.value < REGISTRATION_REFRESH)
       case Connecting(_, Some(shook)) => shook <= h.now <= shook + h.limit
       case _ => true
  }

  /** And how old a connection may be by then, unless it was found in use not long before. */
  predicate YoungAt(h: Hub, t: real)
    requires h.connectedAt.Some?
  {
    || t - h.connectedAt.value < OUTDATED + h.limit
    || (h.busyAt.Some? && t - h.busyAt.value <= WATCHDOG_INTERVAL + h.limit)
  }

  predicate AgeOk(h: Hub) {
    h.sock.Up? && h.connectedAt.Some? ==>
      match h.pc
      case Waiting(deadline) => YoungAt(h, deadline)
      case Registering(began) => YoungAt(h, began)
      case Probing(began) => YoungAt(h, began)
      case _ => true
  }

  predicate Timely(h: Hub) {
    LeaseOk(h) && AgeOk(h)
  }

  lemma DownLoopTimely(h: Hub)
    requires h.limit >= 0.0 && !h.sock.Up?
    ensures Timely(Loop(h))
  {
    hide Backoff;
  }

  lemma AfterCloseTimely(h: Hub)
    requires h.limit >= 0.0 && !h.sock.Up? && InClose(h.pc)
    ensures Timely(AfterClose(h))
  {
    hide Loop;
    match h.pc
    case Dropping(_) => DownLoopTimely(if h.stopping then h else LowerLink(h, Dropped(h.now), false, false));
    case Recycling(began) => DownLoopTimely(LowerLink(h, Recycled(h.now, began), true, true));
    case ClosingFailed(failure) => FailedTimely(h, failure);
    case ClosingDead => DownLoopTimely(FoundDead(h));
  }

  lemma FailedTimely(h: Hub, failure: Failure)
    requires h.limit >= 0.0 && !h.sock.Up?
    ensures Timely(ConnectFailed(h, failure))
  {
    hide Loop;
    if !h.settingUp {
      if failure.LinkError? {
        DownLoopTimely(ReportDown(h).(outcomes := h.outcomes + [Failed]));
      } else {
        DownLoopTimely(CountRefusal(ReportDown(h)));
      }
    }
  }

  lemma CloseTimely(h: Hub, pc: Pc)
    requires h.limit >= 0.0 && InClose(pc)
    ensures Timely(Close(h, pc))
  {
    hide AfterClose;
    if !h.sock.Up? {
      AfterCloseTimely(h.(pc := pc, registeredAt := if h.sock.Down? then None else h.registeredAt));
    }
  }

  /** Back to the top of the loop from a pass that began at `began`, or from a handshake. */
  lemma LoopTimely(h: Hub, began: real)
    requires h.limit >= 0.0 && began <= h.now <= began + h.limit
    requires h.sock.Up? && h.registeredAt.Some? ==> began - h.registeredAt.value < REGISTRATION_REFRESH
    requires h.connectedAt.Some? ==> began - h.connectedAt.value < CONNECTION_MAX_AGE || h.busyAt == Some(began)
    ensures Timely(Loop(h))
  {
  }

  lemma RecycleStageTimely(h: Hub, began: real, busy: bool)
    requires h.limit >= 0.0 && began <= h.now <= began + h.limit
    requires h.sock.Up? && h.registeredAt.Some? ==> began - h.registeredAt.value < REGISTRATION_REFRESH
    ensures Timely(RecycleStage(h, began, busy))
  {
    hide Timely, Close, Loop;
    if h.connectedAt.None? || began - h.connectedAt.value < CONNECTION_MAX_AGE {
      LoopTimely(h, began);
    } else if busy {
      LoopTimely(h.(busyAt := Some(began)), began);
    } else {
      CloseTimely(h, Recycling(began));
    }
  }

  lemma ConnectDoneTimely(h: Hub)
    requires Timely(h) && Places(h) && h.pc.Connecting? && h.pc.shook.Some?
    ensures Timely(ConnectDone(h))
  {
    var told := Connected(h);
    assert LeaseOk(h);
    hide Close, Loop, Timely;
    if h.settingUp || Available(told) {
      if h.sock.Up? {
        LoopTimely(told, h.pc.shook.value);
      } else {
        DownLoopTimely(told);
      }
    } else {
      CloseTimely(told, ClosingDead);
    }
  }

  lemma PassTimely(h: Hub, silent: bool, busy: bool)
    requires Timely(h) && h.pc.Waiting?
    ensures Timely(Pass(h, silent, busy))
  {
    hide Loop, RecycleStage, Close;
    if !h.stopping {
      if !h.sock.Up? {
        DownLoopTimely(h);
      } else if h.registeredAt.None? {
        CloseTimely(h, Dropping(h.now));
      } else if h.now - h.registeredAt.value < REGISTRATION_REFRESH {
        if !silent {
          RecycleStageTimely(h, h.now, busy);
        }
      }
    }
  }

  lemma RenewalTimely(h: Hub, ok: bool, silent: bool, busy: bool)
    requires Timely(h) && h.pc.Registering?
    ensures Timely(Apply(h, RenewalReturns(ok, silent, busy)))
  {
    hide RecycleStage, Close;
    if !ok {
      CloseTimely(h.(registeredAt := None), Dropping(h.pc.began));
    } else if !silent {
      RecycleStageTimely(h.(registeredAt := Some(h.now)), h.pc.began, busy);
    }
  }

  lemma StepTimely(h: Hub, step: Step)
    requires Timely(h) && Places(h)
    ensures Timely(Apply(h, step))
  {
    hide Close, AfterClose, ConnectFailed, ConnectDone, RecycleStage, Pass, LowerLink, Loop, ProbeStage, BeginConnect;
    if Enabled(h, step) {
      match step
      case ConnectFails(failure) => ConnectFailsTimely(h, failure);
      case ConnectReturns => ConnectDoneTimely(h);
      case Wakes(silent, busy) => PassTimely(h, silent, busy);
      case RenewalReturns(ok, silent, busy) => RenewalTimely(h, ok, silent, busy);
      case ProbeReturns(ok, busy) => ProbeTimely(h, ok, busy);
      case CloseReturns => AfterCloseTimely(h.(sock := Down, registeredAt := None));
      case CallAbandoned => BeginConnectTimely(h);
      case BackoffOver => BeginConnectTimely(h);
      case LossEnds => LossTimely(h);
      case _ => PlainTimely(h, step);
    }
  }

  lemma ConnectFailsTimely(h: Hub, failure: Failure)
    requires Timely(h) && Places(h) && Enabled(h, ConnectFails(failure))
    ensures Timely(Apply(h, ConnectFails(failure)))
  {
    hide Close, ConnectFailed;
    CloseTimely(h, ClosingFailed(failure));
    if !h.pc.isOpen {
      FailedTimely(h, failure);
    }
  }

  lemma ProbeTimely(h: Hub, ok: bool, busy: bool)
    requires Timely(h) && Places(h) && Enabled(h, ProbeReturns(ok, busy))
    ensures Timely(Apply(h, ProbeReturns(ok, busy)))
  {
    hide Close, RecycleStage;
    CloseTimely(h, Dropping(h.pc.began));
    RecycleStageTimely(h, h.pc.began, busy);
  }

  lemma PlainTimely(h: Hub, step: Step)
    requires Timely(h) && Places(h) && Enabled(h, step)
    requires step.SocketOpens? || step.Registers? || step.LossBegins? || step.ShutsDown? || step.Tick?
    ensures Timely(Apply(h, step))
  {
    hide Close, AfterClose, ConnectFailed, ConnectDone, RecycleStage, Pass, LowerLink, Loop, ProbeStage, BeginConnect;
  }

  lemma BeginConnectTimely(h: Hub)
    requires h.limit >= 0.0 && Places(h) && (h.pc.Abandoning? || h.pc.BackingOff?)
    ensures Timely(BeginConnect(h))
  {
    hide Backoff;
  }

  lemma LossTimely(h: Hub)
    requires Timely(h) && h.sock.Losing?
    ensures Timely(Apply(h, LossEnds))
  {
    hide EndLifetime;
  }

  lemma {:induction false} AlwaysTimely(limit: real, steps: seq<Step>)
    requires limit >= 0.0
    ensures Timely(Exec(limit, steps)) && Exec(limit, steps).limit == limit
  {
    if steps != [] {
      var h, step := Exec(limit, steps[..|steps| - 1]), steps[|steps| - 1];
      AlwaysTimely(limit, steps[..|steps| - 1]);
      AlwaysAgrees(limit, steps[..|steps| - 1]);
      hide Timely, Agrees;
      assert Places(h) by { PlacesOf(h); }
      StepTimely(h, step);
    }
  }

  lemma PlacesOf(h: Hub)
    requires Agrees(h)
    ensures Places(h)
  {
  }

  /** If no pass of the watchdog takes longer than `limit`, then while a connection is served its registration is
      younger than the refresh age and one interval and twice that; and so is the connection itself younger than its
      maximum age and as much, or else it was found in use by a pass that began within the last interval and as much. */
  lemma LeaseIsKept(limit: real, steps: seq<Step>)
    requires limit >= 0.0
    requires var h := Exec(limit, steps); !h.stopping && h.sock.Up? && Serving(h.pc)
    ensures var h := Exec(limit, steps);
            && h.registeredAt.Some? && h.now - h.registeredAt.value < 900.0 + 60.0 + 2.0 * limit
            && h.connectedAt.Some?
            && (h.now - h.connectedAt.value < 3000.0 + 60.0 + 2.0 * limit
                || (h.busyAt.Some? && h.now - h.busyAt.value <= 60.0 + 2.0 * limit
                    && exists n: nat :: FoundBusyAt(limit, steps, n, h.busyAt.value)))
  {
    AlwaysTimely(limit, steps);
    AlwaysAgrees(limit, steps);
    hide Exec;
    if Exec(limit, steps).busyAt.Some? {
      BusyMeans(limit, steps);
    }
  }

  /** Whether this step is the point of a pass, begun at `began`, at which a connection due for replacement is found to
      be in use. */
  predicate FindsBusy(h: Hub, step: Step, began: real) {
    && Enabled(h, step) && h.connectedAt.Some? && began - h.connectedAt.value >= CONNECTION_MAX_AGE
    && match step
       case Wakes(_, busy) => busy && began == h.now
       case RenewalReturns(ok, _, busy) => ok && busy && began == h.pc.began
       case ProbeReturns(ok, busy) => ok && busy && began == h.pc.began
       case _ => false
  }

  ghost predicate FoundBusyAt(limit: real, steps: seq<Step>, n: nat, began: real) {
    n < |steps| && FindsBusy(Exec(limit, steps[..n]), steps[n], began)
  }

  lemma {:induction false} BusyMeans(limit: real, steps: seq<Step>)
    requires Exec(limit, steps).busyAt.Some?
    ensures exists n: nat :: FoundBusyAt(limit, steps, n, Exec(limit, steps).busyAt.value)
  {
    hide FindsBusy, Apply;
    if steps != [] {
      var front, last := steps[..|steps| - 1], steps[|steps| - 1];
      var before, now := Exec(limit, front), Exec(limit, steps);
      StepBusy(before, last);
      if now.busyAt == before.busyAt {
        BusyMeans(limit, front);
        var n: nat :| FoundBusyAt(limit, front, n, before.busyAt.value);
        assert front[..n] == steps[..n];
        assert FoundBusyAt(limit, steps, n, before.busyAt.value);
      } else {
        assert FoundBusyAt(limit, steps, |steps| - 1, now.busyAt.value);
      }
    }
  }

  lemma StepBusy(h: Hub, step: Step)
    ensures var r := Apply(h, step);
            r.busyAt == h.busyAt || r.busyAt == None || FindsBusy(h, step, r.busyAt.value)
  {
    hide Loop, Close, AfterClose, ConnectFailed, LowerLink, ConnectDone, BeginConnect, RecycleStage, Pass, ProbeStage;
    match step
    case Wakes(silent, busy) => PassBusy(h, silent, busy);
    case RenewalReturns(ok, silent, busy) => ProbeBusy(h.(registeredAt := Some(h.now)), h.pc, silent, busy);
    case ProbeReturns(ok, busy) => ProbeBusy(h, h.pc, false, busy);
    case _ =>
  }

  lemma ProbeBusy(h: Hub, pc: Pc, silent: bool, busy: bool)
    ensures pc.Registering? || pc.Probing? ==>
              var r := ProbeStage(h, pc.began, silent, busy);
              && (!silent ==> r == RecycleStage(h, pc.began, busy))
              && (r.busyAt == h.busyAt
                  || (busy && h.connectedAt.Some? && pc.began - h.connectedAt.value >= CONNECTION_MAX_AGE
                      && r.busyAt == Some(pc.began)))
  {
    hide Loop, Close;
  }

  lemma PassBusy(h: Hub, silent: bool, busy: bool)
    ensures var r := Pass(h, silent, busy);
            || r.busyAt == h.busyAt
            || (busy && h.connectedAt.Some? && h.now - h.connectedAt.value >= CONNECTION_MAX_AGE
                && r.busyAt == Some(h.now))
  {
    hide Loop, Close;
  }

  /** Passes of less than four and a half minutes keep both inside the panel's hour, apart from such a connection. */
  lemma InsideTheHour(limit: real, steps: seq<Step>)
    requires 0.0 <= limit <= 270.0
    requires var h := Exec(limit, steps); !h.stopping && h.sock.Up? && Serving(h.pc)
    ensures var h := Exec(limit, steps);
            && h.registeredAt.Some? && h.now - h.registeredAt.value < 3600.0 && h.connectedAt.Some?
            && (h.now - h.connectedAt.value < 3600.0
                || exists n: nat, began :: FoundBusyAt(limit, steps, n, began) && h.now - began <= 600.0)
  {
    LeaseIsKept(limit, steps);
    hide Exec, FoundBusyAt;
  }

  // ---------------------------------------------------------------- backoff and reauthentication

  /** How many refusals there were since a connect last came through; other failures do not count. */
  function Refusals(outcomes: seq<Outcome>): nat {
    if outcomes == [] || outcomes[|outcomes| - 1].Completed? then 0
    else Refusals(outcomes[..|outcomes| - 1]) + (if outcomes[|outcomes| - 1].Refused? then 1 else 0)
  }

  lemma OutcomesAppend(outcomes: seq<Outcome>, o: Outcome)
    ensures Refusals(outcomes + [o]) == match o
                                        case Completed => 0
                                        case Refused => Refusals(outcomes) + 1
                                        case Failed => Refusals(outcomes)
  {
    assert (outcomes + [o])[..|outcomes|] == outcomes;
  }

  /** The fields are what the history says. */
  ghost predicate Counted(h: Hub) {
    && HistoryOk(h.history)
    && h.attempt == Climbs(h.history) && h.immediate == Replacing(h.history) && h.connectedAt == Since(h.history)
    && h.authFailures == Refusals(h.outcomes)
  }

  /** A replacement in progress is of a connection that is old enough. */
  predicate OldEnough(h: Hub, pc: Pc) {
    pc.Recycling? ==> h.connectedAt.Some? && pc.began - h.connectedAt.value >= CONNECTION_MAX_AGE
  }

  ghost predicate CountsOk(h: Hub) {
    && Counted(h) && OldEnough(h, h.pc)
    && h.authFailures <= AUTH_FAILURES_BEFORE_REAUTH
    && (h.pc.GaveUp? ==> h.authFailures == AUTH_FAILURES_BEFORE_REAUTH)
    && (h.authFailures == AUTH_FAILURES_BEFORE_REAUTH ==> h.pc.GaveUp? || h.stopping)
  }

  lemma LowerLinkCounts(h: Hub, why: Mark, immediate: bool, quiet: bool)
    requires Counted(h) && LoweredAt(why) == Some(h.now) && immediate == why.Recycled? && Fits(h.history, why)
    ensures var r := LowerLink(h, why, immediate, quiet);
            Counted(r) && r.authFailures == h.authFailures && r.pc == h.pc && r.stopping == h.stopping
  {
    EndedOk(h.history, why);
    LowerLinkEnds(h, why, immediate, quiet);
    hide LowerLink, HistoryOk, Climbs, Replacing, Since, Refusals, Ended;
  }

  lemma LowerLinkEnds(h: Hub, why: Mark, immediate: bool, quiet: bool)
    requires h.connectedAt == Since(h.history) && LoweredAt(why) == Some(h.now)
    ensures var r := LowerLink(h, why, immediate, quiet);
            && r.history == Ended(h.history, why) && r.immediate == immediate && r.connectedAt.None?
            && r.attempt == (if |r.history| == |h.history| + 1 then h.attempt else 0)
            && r.outcomes == h.outcomes && r.authFailures == h.authFailures && r.pc == h.pc && r.stopping == h.stopping
  {
    hide Since;
    LoweringLogs(h, why, quiet);
    EndLifetimeLogs(Lowering(h, why, quiet));
    hide Lowering, EndLifetime;
    assert h.history + [why] + [] == h.history + [why];
  }

  lemma LoweringLogs(h: Hub, why: Mark, quiet: bool)
    ensures var r := Lowering(h, why, quiet);
            && r.history == h.history + [why] && r.connectedAt == h.connectedAt && r.now == h.now
            && r.attempt == h.attempt
            && r.outcomes == h.outcomes && r.authFailures == h.authFailures && r.pc == h.pc && r.stopping == h.stopping
  {
  }

  lemma EndLifetimeLogs(h: Hub)
    ensures var r := EndLifetime(h);
            && r.history == h.history + (if h.connectedAt.Some? && h.now - h.connectedAt.value >= STABLE_CONNECTION
                                         then [Lasted(h.now - h.connectedAt.value)] else [])
            && r.attempt == (if |r.history| == |h.history| then h.attempt else 0)
            && r.outcomes == h.outcomes && r.authFailures == h.authFailures && r.pc == h.pc && r.stopping == h.stopping
  {
  }

  lemma LoopCounts(h: Hub)
    requires Counted(h) && h.authFailures < AUTH_FAILURES_BEFORE_REAUTH
    ensures CountsOk(Loop(h)) && Loop(h).outcomes == h.outcomes
  {
    if !h.stopping && !h.sock.Up? {
      var mark := if h.immediate then AtOnce(h.now) else Delay(Backoff(h.attempt), h.now);
      assert (h.history + [mark])[..|h.history|] == h.history;
      assert !LongAt(h.history + [mark], |h.history|);
      hide Climbs, Replacing, Since, Refusals, HistoryOk;
      Appended(h.history, mark);
      OneMore(h.history, mark);
    }
  }

  lemma ReportDownSame(h: Hub)
    ensures var r := ReportDown(h);
            && r.history == h.history && r.attempt == h.attempt && r.immediate == h.immediate
            && r.connectedAt == h.connectedAt && r.outcomes == h.outcomes && r.authFailures == h.authFailures
            && r.stopping == h.stopping
  {
  }

  lemma ConnectFailedCounts(h: Hub, failure: Failure)
    requires Counted(h) && h.authFailures < AUTH_FAILURES_BEFORE_REAUTH
    ensures CountsOk(ConnectFailed(h, failure))
  {
    ReportDownSame(h);
    hide Loop, ReportDown, HistoryOk, Climbs, Replacing, Since, Refusals;
    if !h.settingUp {
      if failure.LinkError? {
        OutcomesAppend(h.outcomes, Failed);
        LoopCounts(ReportDown(h).(outcomes := h.outcomes + [Failed]));
      } else {
        OutcomesAppend(h.outcomes, Refused);
        var counted := CountRefusal(ReportDown(h));
        if counted.authFailures < AUTH_FAILURES_BEFORE_REAUTH {
          LoopCounts(counted);
        }
      }
    }
  }

  lemma AfterCloseCounts(h: Hub)
    requires Counted(h) && h.authFailures < AUTH_FAILURES_BEFORE_REAUTH && InClose(h.pc) && OldEnough(h, h.pc)
    ensures CountsOk(AfterClose(h))
  {
    hide Loop, LowerLink, CountsOk, ConnectFailed, FoundDead, HistoryOk, Climbs, Replacing, Since, Refusals;
    match h.pc
    case Dropping(_) =>
      LowerLinkCounts(h, Dropped(h.now), false, false);
      LoopCounts(if h.stopping then h else LowerLink(h, Dropped(h.now), false, false));
    case Recycling(began) =>
      LowerLinkCounts(h, Recycled(h.now, began), true, true);
      LoopCounts(LowerLink(h, Recycled(h.now, began), true, true));
    case ClosingFailed(failure) => ConnectFailedCounts(h, failure);
    case ClosingDead =>
      FoundDeadCounts(h);
      LoopCounts(FoundDead(h));
  }

  lemma FoundDeadCounts(h: Hub)
    requires Counted(h)
    ensures Counted(FoundDead(h)) && FoundDead(h).authFailures == h.authFailures
  {
    assert (h.history + [Died])[..|h.history|] == h.history;
    hide Climbs, Replacing, Since, Refusals, HistoryOk;
    Appended(h.history, Died);
    OneMore(h.history, Died);
  }

  lemma SameCounts(h: Hub, h': Hub)
    requires Counted(h) && h'.history == h.history && h'.attempt == h.attempt && h'.immediate == h.immediate
    requires h'.connectedAt == h.connectedAt && h'.outcomes == h.outcomes && h'.authFailures == h.authFailures
    ensures Counted(h')
  {
  }

  lemma CloseCounts(h: Hub, pc: Pc)
    requires Counted(h) && h.authFailures < AUTH_FAILURES_BEFORE_REAUTH && InClose(pc) && OldEnough(h, pc)
    ensures CountsOk(Close(h, pc))
  {
    hide AfterClose, HistoryOk, Climbs, Replacing, Since, Refusals;
    AfterCloseCounts(h.(pc := pc, registeredAt := if h.sock.Down? then None else h.registeredAt));
  }

  lemma ConnectedCounts(h: Hub)
    requires Counted(h)
    ensures Counted(Connected(h)) && Connected(h).authFailures == 0
  {
    assert (h.history + [CameUp(h.now)])[..|h.history|] == h.history;
    hide Climbs, Replacing, Since, Refusals, HistoryOk;
    OutcomesAppend(h.outcomes, Completed);
    Appended(h.history, CameUp(h.now));
    OneMore(h.history, CameUp(h.now));
  }

  lemma ConnectDoneCounts(h: Hub)
    requires Counted(h) && h.pc.Connecting?
    ensures CountsOk(ConnectDone(h))
  {
    var told := Connected(h);
    ConnectedCounts(h);
    hide Close, Loop, CountsOk, Counted, Connected;
    LoopCounts(told);
    CloseCounts(told, ClosingDead);
  }

  lemma RecycleStageCounts(h: Hub, began: real, busy: bool)
    requires Counted(h) && h.authFailures < AUTH_FAILURES_BEFORE_REAUTH
    ensures CountsOk(RecycleStage(h, began, busy))
  {
    hide Close, Loop, CountsOk, HistoryOk, Climbs, Replacing, Since, Refusals;
    if h.connectedAt.None? || began - h.connectedAt.value < CONNECTION_MAX_AGE {
      LoopCounts(h);
    } else if busy {
      LoopCounts(h.(busyAt := Some(began)));
    } else {
      CloseCounts(h, Recycling(began));
    }
  }

  lemma PassCounts(h: Hub, silent: bool, busy: bool)
    requires Counted(h) && h.authFailures < AUTH_FAILURES_BEFORE_REAUTH
    ensures CountsOk(Pass(h, silent, busy))
  {
    hide CountsOk, Close, Loop, RecycleStage, HistoryOk, Climbs, Replacing, Since, Refusals;
    LoopCounts(h);
    CloseCounts(h, Dropping(h.now));
    RecycleStageCounts(h, h.now, busy);
    StopsCounted(h, h.(pc := Stopped));
    StopsCounted(h, h.(pc := Registering(h.now)));
    StopsCounted(h, h.(pc := Probing(h.now)));
  }

  lemma StopsCounted(h: Hub, r: Hub)
    requires Counted(h) && h.authFailures < AUTH_FAILURES_BEFORE_REAUTH
    requires r == h.(pc := r.pc) && (r.pc.Stopped? || r.pc.Registering? || r.pc.Probing?)
    ensures CountsOk(r)
  {
    hide HistoryOk, Climbs, Replacing, Since, Refusals;
  }

  lemma StepCounts(h: Hub, step: Step)
    requires CountsOk(h) && Places(h)
    ensures CountsOk(Apply(h, step))
  {
    if Enabled(h, step) && h.authFailures < AUTH_FAILURES_BEFORE_REAUTH {
      assert Counted(h) && OldEnough(h, h.pc);
      hide Close, AfterClose, ConnectFailed, ConnectDone, RecycleStage, Pass, LowerLink, Loop, CountsOk, Counted;
      match step {
        case ConnectFails(failure) =>
          ConnectFailedCounts(h, failure);
          CloseCounts(h, ClosingFailed(failure));
        case ConnectReturns => ConnectDoneCounts(h);
        case Wakes(silent, busy) => PassCounts(h, silent, busy);
        case RenewalReturns(ok, silent, busy) => RenewalCounts(h, ok, silent, busy);
        case ProbeReturns(ok, busy) =>
          CloseCounts(h, Dropping(h.pc.began));
          RecycleStageCounts(h, h.pc.began, busy);
        case CloseReturns =>
          SameCounts(h, h.(sock := Down, registeredAt := None));
          AfterCloseCounts(h.(sock := Down, registeredAt := None));
        case _ => OtherStepCounts(h, step);
      }
    } else {
      SpentOrIdle(h, step);
    }
  }

  lemma SpentOrIdle(h: Hub, step: Step)
    requires CountsOk(h) && Places(h)
    requires Enabled(h, step) ==> h.authFailures == AUTH_FAILURES_BEFORE_REAUTH
    ensures CountsOk(Apply(h, step))
  {
    if Enabled(h, step) {
      SpentStep(h, step);
    }
  }

  lemma RenewalCounts(h: Hub, ok: bool, silent: bool, busy: bool)
    requires Counted(h) && h.authFailures < AUTH_FAILURES_BEFORE_REAUTH && h.pc.Registering?
    ensures CountsOk(Apply(h, RenewalReturns(ok, silent, busy)))
  {
    hide Close, RecycleStage, HistoryOk, Climbs, Replacing, Since, Refusals;
    CloseCounts(h.(registeredAt := None), Dropping(h.pc.began));
    RecycleStageCounts(h.(registeredAt := Some(h.now)), h.pc.began, busy);
  }

  lemma OtherStepCounts(h: Hub, step: Step)
    requires CountsOk(h) && Places(h) && Enabled(h, step) && h.authFailures < AUTH_FAILURES_BEFORE_REAUTH
    requires step.SocketOpens? || step.Registers? || step.CallAbandoned? || step.BackoffOver? || step.LossBegins?
             || step.LossEnds? || step.ShutsDown? || step.Tick?
    ensures CountsOk(Apply(h, step))
  {
    hide Loop, LowerLink, HistoryOk, Climbs, Replacing, Since, Refusals;
    match step
    case CallAbandoned => BeginConnectCounts(h);
    case BackoffOver => BeginConnectCounts(h);
    case LossEnds => LowerLinkCounts(h.(sock := Down, registeredAt := None), Lost(h.now), false, false);
    case _ =>
  }

  lemma BeginConnectCounts(h: Hub)
    requires Counted(h) && h.authFailures < AUTH_FAILURES_BEFORE_REAUTH
    ensures CountsOk(BeginConnect(h))
  {
    LoopCounts(h);
    assert (h.history + [Attempt(h.now)])[..|h.history|] == h.history;
    assert !LongAt(h.history + [Attempt(h.now)], |h.history|);
    hide Loop, Climbs, Replacing, Since, Refusals, HistoryOk;
    Appended(h.history, Attempt(h.now));
    OneMore(h.history, Attempt(h.now));
  }

  /** After the last refusal nothing is left but time, and a loss still to be heard of. */
  lemma SpentStep(h: Hub, step: Step)
    requires CountsOk(h) && Places(h) && h.authFailures == AUTH_FAILURES_BEFORE_REAUTH
    ensures Apply(h, step).pc.GaveUp? || Apply(h, step).pc.Stopped?
    ensures CountsOk(Apply(h, step)) && Apply(h, step).outcomes == h.outcomes
    ensures Apply(h, step).authFailures == AUTH_FAILURES_BEFORE_REAUTH
  {
    hide HistoryOk, Climbs, Replacing, Since, Refusals;
    if step.LossEnds? && h.sock.Losing? {
      LowerLinkCounts(h.(sock := Down, registeredAt := None), Lost(h.now), false, false);
    }
  }

  lemma {:induction false} AlwaysCounted(limit: real, steps: seq<Step>)
    ensures CountsOk(Exec(limit, steps)) && Places(Exec(limit, steps))
  {
    AlwaysAgrees(limit, steps);
    if steps != [] {
      AlwaysCounted(limit, steps[..|steps| - 1]);
      StepCounts(Exec(limit, steps[..|steps| - 1]), steps[|steps| - 1]);
    }
  }

  /** Over every run, whatever was lost, dropped, replaced or retried: each delay is the one that its place since the
      last reset calls for, and delays do not shrink between resets. */
  lemma BackoffClimbs(limit: real, steps: seq<Step>)
    ensures var history := Exec(limit, steps).history;
            && (forall p :: 0 <= p < |history| && history[p].Delay? ==>
                  && var n := Climbs(history[..p]);
                  && history[p].seconds
                     == [5.0, 15.0, 30.0, 60.0, 120.0, 300.0, 600.0][if n < 7 then n else 6])
            && (forall p, q :: 0 <= p <= q < |history| && history[p].Delay? && history[q].Delay?
                               && (forall i :: p < i < q ==> !Reset(history[i])) ==>
                                 history[p].seconds <= history[q].seconds)
  {
    AlwaysCounted(limit, steps);
    hide Exec, Climbs, Replacing, Since;
    var history := Exec(limit, steps).history;
    forall p | 0 <= p < |history| && history[p].Delay?
      ensures var n := Climbs(history[..p]);
              history[p].seconds == [5.0, 15.0, 30.0, 60.0, 120.0, 300.0, 600.0][if n < 7 then n else 6]
    {
      assert MarkOk(history, p);
    }
    forall p, q | 0 <= p <= q < |history| && history[p].Delay? && history[q].Delay?
                  && (forall i :: p < i < q ==> !Reset(history[i]))
      ensures history[p].seconds <= history[q].seconds
    {
      DelaysGrow(history, p, q);
    }
  }

  /** An attempt is made at once, and the backoff reset by it, exactly when it is for a planned replacement: a
      connection was closed that had been up for its maximum age when the pass began, and since then nothing was lost or
      dropped and no other attempt begun. */
  lemma AtOnceExactlyAfterRecycle(limit: real, steps: seq<Step>, p: nat)
    requires var history := Exec(limit, steps).history;
             p < |history| && (history[p].AtOnce? || history[p].Delay?)
    ensures var before := Exec(limit, steps).history[..p];
            && (Exec(limit, steps).history[p].AtOnce? <==> exists q :: LastRecycle(before, q))
            && (forall q: nat :: LastRecycle(before, q) ==>
                  exists r: nat, at: real :: UpSince(before[..q], r, at) && before[q].began - at >= 3000.0)
  {
    AlwaysCounted(limit, steps);
    hide Exec, Climbs, Replacing, Since;
    var history := Exec(limit, steps).history;
    var before := history[..p];
    assert MarkOk(history, p);
    ReplacingMeans(before);
    forall q: nat | LastRecycle(before, q)
      ensures exists r: nat, at: real :: UpSince(before[..q], r, at) && before[q].began - at >= CONNECTION_MAX_AGE
    {
      assert MarkOk(history, q) && history[..q] == before[..q];
      var at := Since(history[..q]).value;
      SinceMeans(history[..q], at);
      var r :| UpSince(history[..q], r, at);
    }
  }

  /** Every other reset is for a connection that lasted, and every connection that lasted resets: right after the mark
      of its end, and only there, if 120 seconds or more have passed since the last connect that came through. */
  lemma ResetExactlyWhenItLasted(limit: real, steps: seq<Step>, p: nat, at: real)
    requires p < |Exec(limit, steps).history| && LoweredAt(Exec(limit, steps).history[p]) == Some(at)
    ensures var history := Exec(limit, steps).history;
            (p + 1 < |history| && history[p + 1].Lasted?)
            <==> exists q: nat, up: real :: UpSince(history[..p], q, up) && at - up >= 120.0
    ensures var history := Exec(limit, steps).history;
            forall q: nat, up: real :: UpSince(history[..p], q, up) && p + 1 < |history| && history[p + 1].Lasted? ==>
              history[p + 1].lifetime == at - up
  {
    AlwaysCounted(limit, steps);
    hide Exec, Climbs, Replacing, Since;
    var history := Exec(limit, steps).history;
    LastedAfter(history, p, at);
  }

  lemma LastedAfter(history: seq<Mark>, p: nat, at: real)
    requires HistoryOk(history) && p < |history| && LoweredAt(history[p]) == Some(at)
    ensures (p + 1 < |history| && history[p + 1].Lasted?)
            <==> exists q: nat, up: real :: UpSince(history[..p], q, up) && at - up >= STABLE_CONNECTION
    ensures forall q: nat, up: real :: UpSince(history[..p], q, up) && p + 1 < |history| && history[p + 1].Lasted? ==>
              history[p + 1].lifetime == at - up
  {
    hide Climbs, Replacing, Since;
    assert MarkOk(history, p) && (p + 1 < |history| ==> MarkOk(history, p + 1));
    forall q: nat, up: real | UpSince(history[..p], q, up) ensures Since(history[..p]) == Some(up) {
      SinceMeans(history[..p], up);
    }
    if Since(history[..p]).Some? {
      var up := Since(history[..p]).value;
      SinceMeans(history[..p], up);
      var q: nat :| UpSince(history[..p], q, up);
      assert UpSince(history[..p], q, up) && (LongAt(history, p) <==> at - up >= STABLE_CONNECTION);
    }
  }

  /** And a reset for a connection that lasted stands nowhere else. */
  lemma LastedOnlyAfterItsEnd(limit: real, steps: seq<Step>, p: nat)
    requires p < |Exec(limit, steps).history| && Exec(limit, steps).history[p].Lasted?
    ensures p > 0 && LoweredAt(Exec(limit, steps).history[p - 1]).Some?
  {
    AlwaysCounted(limit, steps);
    assert MarkOk(Exec(limit, steps).history, p);
  }

  /** A new token is asked for exactly when the panel has refused the old one three times since a connect last came
      through, however many attempts failed otherwise in between. */
  lemma ReauthExactlyAtThird(limit: real, steps: seq<Step>)
    ensures var h := Exec(limit, steps);
            && Refusals(h.outcomes) <= 3
            && (!h.stopping ==> (h.pc.GaveUp? <==> Refusals(h.outcomes) == 3))
  {
    AlwaysCounted(limit, steps);
  }

  /** And after that the supervisor makes no attempt at all. */
  lemma {:induction false} NoAttemptAfterGivingUp(limit: real, steps: seq<Step>, more: seq<Step>)
    requires Exec(limit, steps).pc.GaveUp?
    ensures Exec(limit, steps + more).outcomes == Exec(limit, steps).outcomes
    ensures Exec(limit, steps + more).pc.GaveUp? || Exec(limit, steps + more).pc.Stopped?
    ensures Exec(limit, steps + more).authFailures == AUTH_FAILURES_BEFORE_REAUTH
  {
    if more == [] {
      assert steps + [] == steps;
      AlwaysCounted(limit, steps);
    } else {
      var front, last := more[..|more| - 1], more[|more| - 1];
      assert (steps + more)[..|steps + more| - 1] == steps + front;
      assert Exec(limit, steps + more) == Apply(Exec(limit, steps + front), last);
      hide Apply, Places, Exec, Counted, OldEnough;
      NoAttemptAfterGivingUp(limit, steps, front);
      AlwaysCounted(limit, steps + front);
      SpentStep(Exec(limit, steps + front), last);
    }
  }
}
