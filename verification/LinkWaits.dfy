/** When the supervisor attempts to connect again (hub.py): not before the delay it owed has passed, and no later than
    it must. */
module LinkWaits {
  import opened Bytes
  import opened LinkHistory
  import opened Link

  /** What is owed before the next attempt: a wait of so many seconds, from then on. */
  datatype Owing = Owing(seconds: real, at: real)

  /** The wait owed by the last mark that says one is, unless the attempt it was for has begun. */
  function Owed(history: seq<Mark>): Option<Owing> {
    if history == [] then None
    else
      match history[|history| - 1]
      case Delay(seconds, at) => Some(Owing(seconds, at))
      case AtOnce(at) => Some(Owing(0.0, at))
      case Attempt(_) => None
      case _ => Owed(history[..|history| - 1])
  }

  predicate Due(owed: Option<Owing>, at: real) {
    owed.Some? && owed.value.at + owed.value.seconds <= at
  }

  /** Every attempt was owed, and was not begun before it was due. */
  ghost predicate Punctual(history: seq<Mark>) {
    forall p :: 0 <= p < |history| && history[p].Attempt? ==> Due(Owed(history[..p]), history[p].at)
  }

  /** How many attempts were begun. */
  function Attempts(history: seq<Mark>): nat {
    if history == [] then 0
    else Attempts(history[..|history| - 1]) + if history[|history| - 1].Attempt? then 1 else 0
  }

  /** Every attempt but those still open has an outcome; the first one is the setup's. */
  predicate Matched(h: Hub, going: nat) {
    Attempts(h.history) + 1 == |h.outcomes| + going
  }

  function InAttempt(pc: Pc): nat {
    if pc.Connecting? || pc.ClosingFailed? then 1 else 0
  }

  /** Nothing is owed. */
  ghost predicate Idle(h: Hub, going: nat) {
    Punctual(h.history) && Owed(h.history).None? && Matched(h, going)
  }

  /** And where the supervisor stands while something is. */
  ghost predicate WaitsOk(h: Hub) {
    && Punctual(h.history)
    && (h.pc.Stopped? || Matched(h, InAttempt(h.pc)))
    && match h.pc
       case Abandoning(delay) =>
         && Owed(h.history).Some? && Owed(h.history).value.seconds == delay && delay >= 0.0
         && Owed(h.history).value.at <= h.now
       case BackingOff(until) =>
         && Due(Owed(h.history), until) && Owed(h.history).value.seconds >= 0.0
         && until <= h.now + Owed(h.history).value.seconds
       case Stopped => h.stopping || Owed(h.history).None?
       case _ => Owed(h.history).None?
  }

  lemma Grows(history: seq<Mark>, m: Mark)
    requires Punctual(history) && (m.Attempt? ==> Due(Owed(history), m.at))
    ensures Punctual(history + [m])
    ensures Owed(history + [m]) == match m
                                   case Delay(seconds, at) => Some(Owing(seconds, at))
                                   case AtOnce(at) => Some(Owing(0.0, at))
                                   case Attempt(_) => None
                                   case _ => Owed(history)
    ensures Attempts(history + [m]) == Attempts(history) + if m.Attempt? then 1 else 0
  {
    var more := history + [m];
    assert more[..|history|] == history;
    forall p | 0 <= p < |more| && more[p].Attempt? ensures Due(Owed(more[..p]), more[p].at) {
      assert p < |history| ==> more[..p] == history[..p];
    }
  }

  lemma LowerLinkWaits(h: Hub, why: Mark, immediate: bool, quiet: bool)
    requires Punctual(h.history) && LoweredAt(why).Some?
    ensures var r := LowerLink(h, why, immediate, quiet);
            && Punctual(r.history) && Owed(r.history) == Owed(h.history) && Attempts(r.history) == Attempts(h.history)
            && r.pc == h.pc && r.now == h.now && r.outcomes == h.outcomes
  {
    hide Owed, Attempts, Punctual;
    Grows(h.history, why);
    if h.connectedAt.Some? {
      Grows(h.history + [why], Lasted(h.now - h.connectedAt.value));
    }
  }

  lemma LoopWaits(h: Hub)
    requires Idle(h, 0)
    ensures WaitsOk(Loop(h))
  {
    hide Owed, Attempts, Punctual;
    Grows(h.history, AtOnce(h.now));
    Grows(h.history, Delay(Backoff(h.attempt), h.now));
  }

  lemma ConnectFailedWaits(h: Hub, failure: Failure)
    requires Idle(h, 1)
    ensures WaitsOk(ConnectFailed(h, failure))
  {
    hide Loop, Owed, Attempts, Punctual;
    LoopWaits(ReportDown(h).(outcomes := h.outcomes + [Failed]));
    LoopWaits(CountRefusal(ReportDown(h)));
  }

  lemma AfterCloseWaits(h: Hub)
    requires Idle(h, InAttempt(h.pc)) && InClose(h.pc)
    ensures WaitsOk(AfterClose(h))
  {
    hide Loop, LowerLink, ConnectFailed, Owed, Attempts, Punctual, WaitsOk;
    match h.pc
    case Dropping(_) =>
      LowerLinkWaits(h, Dropped(h.now), false, false);
      LoopWaits(if h.stopping then h else LowerLink(h, Dropped(h.now), false, false));
    case Recycling(began) =>
      LowerLinkWaits(h, Recycled(h.now, began), true, true);
      LoopWaits(LowerLink(h, Recycled(h.now, began), true, true));
    case ClosingFailed(failure) => ConnectFailedWaits(h, failure);
    case ClosingDead =>
      Grows(h.history, Died);
      LoopWaits(FoundDead(h));
  }

  lemma CloseWaits(h: Hub, pc: Pc)
    requires Idle(h, InAttempt(pc)) && InClose(pc)
    ensures WaitsOk(Close(h, pc))
  {
    hide AfterClose, Owed, Attempts, Punctual;
    AfterCloseWaits(h.(pc := pc, registeredAt := if h.sock.Down? then None else h.registeredAt));
  }

  lemma ConnectDoneWaits(h: Hub)
    requires Idle(h, 1)
    ensures WaitsOk(ConnectDone(h))
  {
    hide Close, Loop, Owed, Attempts, Punctual, WaitsOk;
    Grows(h.history, CameUp(h.now));
    LoopWaits(Connected(h));
    CloseWaits(Connected(h), ClosingDead);
  }

  lemma RecycleStageWaits(h: Hub, began: real, busy: bool)
    requires Idle(h, 0)
    ensures WaitsOk(RecycleStage(h, began, busy))
  {
    hide Close, Loop, Owed, Attempts, Punctual, WaitsOk;
    LoopWaits(h);
    LoopWaits(h.(busyAt := Some(began)));
    CloseWaits(h, Recycling(began));
  }

  lemma PassWaits(h: Hub, silent: bool, busy: bool)
    requires Idle(h, 0)
    ensures WaitsOk(Pass(h, silent, busy))
  {
    hide Close, Loop, RecycleStage, Owed, Attempts, Punctual;
    LoopWaits(h);
    CloseWaits(h, Dropping(h.now));
    RecycleStageWaits(h, h.now, busy);
  }

  lemma RenewalWaits(h: Hub, ok: bool, silent: bool, busy: bool)
    requires WaitsOk(h) && h.pc.Registering?
    ensures WaitsOk(Apply(h, RenewalReturns(ok, silent, busy)))
  {
    hide Close, RecycleStage, Owed, Attempts, Punctual;
    CloseWaits(h.(registeredAt := None), Dropping(h.pc.began));
    RecycleStageWaits(h.(registeredAt := Some(h.now)), h.pc.began, busy);
  }

  lemma BeginConnectWaits(h: Hub)
    requires Punctual(h.history) && Due(Owed(h.history), h.now) && !h.stopping && Matched(h, 0)
    ensures WaitsOk(BeginConnect(h))
  {
    hide Owed, Attempts, Punctual;
    Grows(h.history, Attempt(h.now));
  }

  lemma LossEndsWaits(h: Hub)
    requires WaitsOk(h) && h.sock.Losing?
    ensures WaitsOk(Apply(h, LossEnds))
  {
    hide LowerLink, Owed, Attempts, Punctual;
    LowerLinkWaits(h.(sock := Down, registeredAt := None), Lost(h.now), false, false);
  }

  lemma StepWaits(h: Hub, step: Step)
    requires WaitsOk(h) && Places(h)
    ensures WaitsOk(Apply(h, step))
  {
    hide Close, AfterClose, ConnectFailed, ConnectDone, RecycleStage, Pass, LowerLink, Loop, BeginConnect;
    hide Owed, Attempts, Punctual;
    if Enabled(h, step) {
      match step
      case ConnectFails(failure) =>
        ConnectFailedWaits(h, failure);
        CloseWaits(h, ClosingFailed(failure));
      case ConnectReturns => ConnectDoneWaits(h);
      case Wakes(silent, busy) => PassWaits(h, silent, busy);
      case RenewalReturns(ok, silent, busy) => RenewalWaits(h, ok, silent, busy);
      case ProbeReturns(ok, busy) =>
        CloseWaits(h, Dropping(h.pc.began));
        RecycleStageWaits(h, h.pc.began, busy);
      case CloseReturns => AfterCloseWaits(h.(sock := Down, registeredAt := None));
      case CallAbandoned => if h.pc.delay <= 0.0 { BeginConnectWaits(h); }
      case BackoffOver => BeginConnectWaits(h);
      case LossEnds => LossEndsWaits(h);
      case _ =>
    }
  }

  lemma {:induction false} AlwaysWaits(limit: real, steps: seq<Step>)
    ensures WaitsOk(Exec(limit, steps)) && Places(Exec(limit, steps))
  {
    AlwaysAgrees(limit, steps);
    if steps != [] {
      AlwaysWaits(limit, steps[..|steps| - 1]);
      StepWaits(Exec(limit, steps[..|steps| - 1]), steps[|steps| - 1]);
    }
  }

  /** At `q` a wait is owed, and nothing between `q` and `p` owes another or begins an attempt. */
  predicate LastOwed(history: seq<Mark>, q: nat, p: nat) {
    && q < p <= |history| && (history[q].Delay? || history[q].AtOnce?)
    && forall r :: q < r < p ==> !history[r].Delay? && !history[r].AtOnce? && !history[r].Attempt?
  }

  function OwedBy(m: Mark): Owing
    requires m.Delay? || m.AtOnce?
  {
    Owing(if m.Delay? then m.seconds else 0.0, m.at)
  }

  lemma {:induction false} OwedMeans(history: seq<Mark>) returns (q: nat)
    requires Owed(history).Some?
    ensures LastOwed(history, q, |history|) && Owed(history).value == OwedBy(history[q])
  {
    var n := |history| - 1;
    if history[n].Delay? || history[n].AtOnce? {
      q := n;
    } else {
      q := OwedMeans(history[..n]);
      assert history[..n][q] == history[q];
    }
  }

  /** Over every run: each attempt of the supervisor's was owed, by a mark of its own, and begins no earlier than the
      seconds of a delay after that was owed. */
  lemma EveryAttemptWaits(limit: real, steps: seq<Step>, p: nat)
    requires p < |Exec(limit, steps).history| && Exec(limit, steps).history[p].Attempt?
    ensures var history := Exec(limit, steps).history;
            exists q: nat :: LastOwed(history, q, p)
              && (history[q].Delay? ==> history[p].at >= history[q].at + history[q].seconds)
  {
    AlwaysWaits(limit, steps);
    hide Exec, Owed, Attempts;
    var history := Exec(limit, steps).history;
    var q := OwedMeans(history[..p]);
    assert LastOwed(history, q, p);
  }

  /** There are as many attempts, with the setup's own, as there are outcomes and the one still open. */
  lemma EveryAttemptCounts(limit: real, steps: seq<Step>)
    requires !Exec(limit, steps).pc.Stopped?
    ensures var h := Exec(limit, steps);
            Attempts(h.history) + 1 == |h.outcomes| + if h.pc.Connecting? || h.pc.ClosingFailed? then 1 else 0
  {
    AlwaysWaits(limit, steps);
    hide Exec, Attempts, Owed, Punctual;
  }

  /** Nor need it be later: whenever a wait has been owed last, and the socket is down, the next attempt can begin
      within the seconds of that wait, which is with no time passing at all if none was owed. */
  lemma AttemptInTime(limit: real, steps: seq<Step>)
    requires var h := Exec(limit, steps);
             h.sock.Down? && !h.stopping && h.history != [] && exists q: nat :: LastOwed(h.history, q, |h.history|)
    ensures var h := Exec(limit, steps);
            exists q: nat, wait: real ::
              && LastOwed(h.history, q, |h.history|)
              && 0.0 <= wait <= (if h.history[q].Delay? then h.history[q].seconds else 0.0)
              && Exec(limit, steps + [CallAbandoned, Tick(wait), BackoffOver]).history
                 == h.history + [Attempt(h.now + wait)]
  {
    hide Exec, Punctual, Matched, Apply, Owed;
    var h := Exec(limit, steps);
    AlwaysWaits(limit, steps);
    LastIsOwed(h.history);
    var q := OwedMeans(h.history);
    var wait := match h.pc
      case Abandoning(delay) => if delay > 0.0 then delay else 0.0
      case BackingOff(until) => if until > h.now then until - h.now else 0.0
      case _ => 0.0;
    BeginsAfter(h, wait);
    ThreeMore(limit, steps, CallAbandoned, Tick(wait), BackoffOver);
  }

  lemma {:induction false} LastIsOwed(history: seq<Mark>)
    requires exists q: nat :: LastOwed(history, q, |history|)
    ensures Owed(history).Some?
  {
    var q: nat :| LastOwed(history, q, |history|);
    var n := |history| - 1;
    if q < n {
      assert LastOwed(history[..n], q, n);
      LastIsOwed(history[..n]);
    }
  }

  lemma BeginsAfter(h: Hub, wait: real)
    requires WaitsOk(h) && Owed(h.history).Some? && h.sock.Down? && !h.stopping && Places(h)
    requires 0.0 <= wait
    requires h.pc.Abandoning? ==> wait == if h.pc.delay > 0.0 then h.pc.delay else 0.0
    requires h.pc.BackingOff? ==> wait == if h.pc.until > h.now then h.pc.until - h.now else 0.0
    ensures Apply(Apply(Apply(h, CallAbandoned), Tick(wait)), BackoffOver).history
            == h.history + [Attempt(h.now + wait)]
  {
    hide Owed, Attempts, Punctual, Matched;
  }

  lemma ThreeMore(limit: real, steps: seq<Step>, a: Step, b: Step, c: Step)
    ensures Exec(limit, steps + [a, b, c]) == Apply(Apply(Apply(Exec(limit, steps), a), b), c)
  {
    hide Apply;
    assert (steps + [a])[..|steps|] == steps;
    assert Exec(limit, steps + [a]) == Apply(Exec(limit, steps), a);
    assert (steps + [a, b])[..|steps| + 1] == steps + [a];
    assert Exec(limit, steps + [a, b]) == Apply(Exec(limit, steps + [a]), b);
    assert (steps + [a, b, c])[..|steps| + 2] == steps + [a, b];
    assert Exec(limit, steps + [a, b, c]) == Apply(Exec(limit, steps + [a, b]), c);
  }
}
