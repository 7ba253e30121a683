/** The relay's calls (viper/rtsp.py): one task owns each episode of serving, from first dial to last viewer gone.

    A step is what a task does between two awaits. An await can come back in any of the ways it can end, a cancellation
    among them, at any time; an await that would return at once may still be suspended at. A step that is not possible
    where it stands does nothing. */
module Relay {
  import opened Bytes

  const IDLE_GRACE := 2.0

  /** Where `_serve` is suspended. */
  datatype Pc =
    | NotStarted
    | Dialling
    | Relaying
    | EndingPump(left: bool, cancelled: bool)
    | EndingIdle(left: bool, cancelled: bool)
    | Closing(left: bool)
    | FinalClosing
    | Finished

  datatype Episode = Episode(
    target: string,
    pc: Pc,
    call: Option<nat>,
    ready: bool,
    failed: bool,
    dialled: bool,
    started: bool,
    cancelling: bool)          // its owner has been cancelled, however it took that

  /** Where a `_wait_idle` is suspended. */
  datatype Idle = IdleNotStarted | Blocked | Sleeping(since: real) | Returned

  /** What the panel and the clients see of the relay. */
  datatype Act =
    | Dial(target: string)
    | DialFailed
    | Answer(call: nat, generation: nat)
    | HangUp(call: nat)
    | Sent(client: nat, call: nat, generation: nat)

  datatype Relay = Relay(
    clients: map<nat, bool>,   // _clients, each with whether it is playing
    episodes: seq<Episode>,    // every episode made, in order
    current: Option<nat>,      // _episode
    generation: nat,
    idleSet: bool,             // the _idle event
    pumps: map<nat, bool>,     // the pumps nobody has cancelled, by the call they move, each with whether it is over
    idles: map<nat, Idle>,     // and the idle watches
    answered: nat,             // how many calls the factory returned
    now: real,
    stopped: bool,             // stop() has cleared the clients
    log: seq<Act>)

  const Fresh := Relay(map[], [], None, 0, false, map[], map[], 0, 0.0, false, [])

  function Playing(clients: map<nat, bool>): set<nat> {
    set c | c in clients && clients[c]
  }

  function Viewers(s: Relay): nat {
    |Playing(s.clients)|
  }

  /** _live: the episode being served, if its owner is still running. */
  function Live(s: Relay): Option<nat> {
    if s.current.Some? && s.current.value < |s.episodes| && !s.episodes[s.current.value].pc.Finished? then s.current
    else None
  }

  // ---------------------------------------------------------------- operations

  /** _ensure_call, up to its wait for the episode. */
  function Request(s: Relay, target: string): Relay {
    if Live(s).Some? then s
    else
      s.(episodes := s.episodes + [Episode(target, NotStarted, None, false, false, false, false, false)],
         current := Some(|s.episodes|))
  }

  /** Of the episodes, `r` differs from `s` at most in this one. */
  predicate OnlyEpisode(s: Relay, r: Relay, i: nat)
    requires i < |s.episodes|
  {
    |r.episodes| == |s.episodes| && r.episodes == s.episodes[i := r.episodes[i]]
  }

  function With(s: Relay, i: nat, e: Episode): Relay
    requires i < |s.episodes|
  {
    s.(episodes := s.episodes[i := e])
  }

  /** The end of the outer `finally`. */
  function Finish(s: Relay, i: nat): (r: Relay)
    requires i < |s.episodes|
    ensures OnlyEpisode(s, r, i)
  {
    With(s, i, s.episodes[i].(pc := Finished, ready := true, call := None))
      .(current := if s.current == Some(i) then None else s.current)
  }

  function StartDial(s: Relay, i: nat): (r: Relay)
    requires i < |s.episodes|
    ensures OnlyEpisode(s, r, i)
  {
    With(s, i, s.episodes[i].(pc := Dialling, started := true)).(log := s.log + [Dial(s.episodes[i].target)])
  }

  function Answers(s: Relay, i: nat): (r: Relay)
    requires i < |s.episodes|
    ensures OnlyEpisode(s, r, i)
  {
    CountCall(With(s, i, s.episodes[i].(pc := Relaying, call := Some(s.answered), ready := true, dialled := true)))
  }

  /** One more call, with a pump and an idle watch of its own. */
  function CountCall(s: Relay): Relay {
    s.(answered := s.answered + 1, generation := s.generation + 1,
       pumps := s.pumps[s.answered := false], idles := s.idles[s.answered := IdleNotStarted],
       log := s.log + [Answer(s.answered, s.generation + 1)])
  }

  function DialFails(s: Relay, i: nat, cancelled: bool): (r: Relay)
    requires i < |s.episodes|
    ensures OnlyEpisode(s, r, i)
  {
    var e := s.episodes[i];
    Finish(With(s, i, e.(failed := !cancelled && !e.dialled, dialled := true)).(log := s.log + [DialFailed]), i)
  }

  function CallOf(s: Relay, i: nat): set<nat>
    requires i < |s.episodes|
  {
    if s.episodes[i].call.Some? then {s.episodes[i].call.value} else {}
  }

  /** The `finally` of _relay_call, up to its first await: the pump and the idle watch of this call are cancelled. */
  function StopRelaying(s: Relay, i: nat, left: bool, cancelled: bool): (r: Relay)
    requires i < |s.episodes|
    ensures OnlyEpisode(s, r, i)
  {
    With(s, i, s.episodes[i].(pc := EndingPump(left, cancelled)))
      .(pumps := s.pumps - CallOf(s, i), idles := s.idles - CallOf(s, i))
  }

  function HangUpOf(s: Relay, i: nat): seq<Act>
    requires i < |s.episodes|
  {
    if s.episodes[i].call.Some? then [HangUp(s.episodes[i].call.value)] else []
  }

  /** The close after a call that ended by itself or whose clients left. */
  function BeginClose(s: Relay, i: nat, left: bool): (r: Relay)
    requires i < |s.episodes|
    ensures OnlyEpisode(s, r, i)
  {
    With(s, i, s.episodes[i].(pc := Closing(left), call := None)).(log := s.log + HangUpOf(s, i))
  }

  /** The close in the outer `finally`. */
  function BeginFinalClose(s: Relay, i: nat): (r: Relay)
    requires i < |s.episodes|
    ensures OnlyEpisode(s, r, i)
  {
    With(s, i, s.episodes[i].(pc := FinalClosing, ready := true)).(log := s.log + HangUpOf(s, i))
  }

  function CloseDone(s: Relay, i: nat, left: bool): (r: Relay)
    requires i < |s.episodes|
    ensures OnlyEpisode(s, r, i)
  {
    if left || Viewers(s) == 0 then Finish(s, i) else StartDial(s, i)
  }

  /** A CancelledError reaches the owner. */
  function Cancel(s: Relay, i: nat): (r: Relay)
    requires i < |s.episodes|
    ensures OnlyEpisode(s, r, i)
  {
    if s.episodes[i].pc.Finished? then s else CutShort(Ask(s, i), i)
  }

  /** It has been cancelled and goes on all the same. */
  function Ask(s: Relay, i: nat): (r: Relay)
    requires i < |s.episodes|
    ensures OnlyEpisode(s, r, i)
  {
    With(s, i, s.episodes[i].(cancelling := true))
  }

  function CutShort(s: Relay, i: nat): (r: Relay)
    requires i < |s.episodes|
    ensures OnlyEpisode(s, r, i)
  {
    match s.episodes[i].pc
    case NotStarted => With(s, i, s.episodes[i].(pc := Finished))
    case Dialling => DialFails(s, i, true)
    case Relaying => StopRelaying(s, i, false, true)
    case EndingPump(_, _) => BeginFinalClose(s, i)
    case EndingIdle(_, _) => BeginFinalClose(s, i)
    case Closing(_) => Finish(s, i)
    case FinalClosing => With(s, i, s.episodes[i].(pc := Finished))
    case Finished => s
  }

  function Drop(s: Relay, c: nat): Relay {
    var s' := s.(clients := s.clients - {c});
    s'.(idleSet := s.idleSet || Viewers(s') == 0)
  }

  /** What one client gets of a packet, if it plays and does not fail. */
  function SentOne(c: nat, clients: map<nat, bool>, failing: set<nat>, call: nat, generation: nat): seq<Act> {
    if c in clients && clients[c] && c !in failing then [Sent(c, call, generation)] else []
  }

  /** A packet for every client that plays, in some order. */
  function SentTo(order: seq<nat>, clients: map<nat, bool>, failing: set<nat>, call: nat, generation: nat): seq<Act> {
    if order == [] then []
    else SentOne(order[0], clients, failing, call, generation) + SentTo(order[1..], clients, failing, call, generation)
  }

  /** The players that failed. */
  function DeadOf(order: seq<nat>, clients: map<nat, bool>, failing: set<nat>): seq<nat> {
    if order == [] then []
    else
      (if order[0] in clients && clients[order[0]] && order[0] in failing then [order[0]] else [])
      + DeadOf(order[1..], clients, failing)
  }

  function DropAll(s: Relay, dead: seq<nat>): Relay
    decreases |dead|
  {
    if dead == [] then s else DropAll(Drop(s, dead[0]), dead[1..])
  }

  /** A packet of this call goes to every client that plays, under the generation of the moment. */
  function FanOut(s: Relay, call: nat, order: seq<nat>, failing: set<nat>): Relay {
    DropAll(s.(log := s.log + SentTo(order, s.clients, failing, call, s.generation)), DeadOf(order, s.clients, failing))
  }

  /** One round of a _wait_idle, up to its await. */
  function IdleRound(s: Relay, call: nat): Relay {
    s.(idleSet := false, idles := s.idles[call := if s.clients != map[] then Blocked else Sleeping(s.now)])
  }

  // ---------------------------------------------------------------- steps

  datatype Step =
    | Connects(client: nat)
    | Plays(client: nat)
    | Leaves(client: nat)
    | Asks(target: string)
    | Starts(episode: nat)
    | DialReturns(episode: nat)
    | DialRaises(episode: nat)
    | Frame(call: nat, order: seq<nat>, failing: set<nat>)
    | PumpEnds(call: nat)
    | IdleStarts(call: nat)
    | IdleWakes(call: nat)
    | GraceOver(call: nat)
    | WaitReturns(episode: nat)
    | PumpEnded(episode: nat)
    | IdleEnded(episode: nat)
    | Closed(episode: nat)
    | FinallyClosed(episode: nat)
    | IsCancelled(episode: nat)
    | IsAsked(episode: nat)    // cancelled too, but what it waits for comes back by itself: only the flag stays
    | Stops
    | Tick(seconds: real)

  predicate At(s: Relay, i: nat, pc: Pc) {
    i < |s.episodes| && s.episodes[i].pc == pc
  }

  /** Whether `order` goes over the clients, each once. */
  predicate Enumerates(order: seq<nat>, clients: map<nat, bool>) {
    |order| == |clients| && forall c :: c in clients ==> c in order
  }

  /** Whether the pump of this call is running. */
  predicate Pumping(s: Relay, call: nat) {
    call in s.pumps && !s.pumps[call]
  }

  /** Whether asyncio.wait has something to report of the call an episode relays. */
  predicate WaitOver(s: Relay, i: nat)
    requires i < |s.episodes|
  {
    && s.episodes[i].call.Some?
    && var call := s.episodes[i].call.value;
       (call in s.pumps && s.pumps[call]) || (call in s.idles && s.idles[call].Returned?)
  }

  /** The awaits at which a cancellation may be lost: the factory's, and those that end a task. */
  predicate Forgetful(pc: Pc) {
    pc.Dialling? || pc.EndingPump? || pc.EndingIdle? || pc.Closing? || pc.FinalClosing?
  }

  predicate Enabled(s: Relay, step: Step) {
    match step
    case Connects(_) => !s.stopped
    case Plays(c) => c in s.clients
    case Leaves(_) => true
    case Asks(_) => true
    case Starts(i) => At(s, i, NotStarted)
    case DialReturns(i) => At(s, i, Dialling)
    case DialRaises(i) => At(s, i, Dialling)
    case Frame(call, order, _) => Pumping(s, call) && Enumerates(order, s.clients)
    case PumpEnds(call) => Pumping(s, call)
    case IdleStarts(call) => call in s.idles && s.idles[call].IdleNotStarted?
    case IdleWakes(call) => call in s.idles && s.idles[call].Blocked? && s.idleSet
    case GraceOver(call) =>
      call in s.idles && s.idles[call].Sleeping? && s.now >= s.idles[call].since + IDLE_GRACE
    case WaitReturns(i) => At(s, i, Relaying) && WaitOver(s, i)
    case PumpEnded(i) => i < |s.episodes| && s.episodes[i].pc.EndingPump?
    case IdleEnded(i) => i < |s.episodes| && s.episodes[i].pc.EndingIdle?
    case Closed(i) => i < |s.episodes| && s.episodes[i].pc.Closing?
    case FinallyClosed(i) => At(s, i, FinalClosing)
    case IsCancelled(i) => i < |s.episodes|
    case IsAsked(i) => i < |s.episodes| && Forgetful(s.episodes[i].pc)
    case Stops => true
    case Tick(d) => d >= 0.0
  }

  function Apply(s: Relay, step: Step): Relay {
    if !Enabled(s, step) then s
    else match step
      case Connects(c) => if c in s.clients then s else s.(clients := s.clients[c := false])
      case Plays(c) => s.(clients := s.clients[c := true])
      case Leaves(c) => Drop(s, c)
      case Asks(target) => Request(s, target)
      case Starts(i) => StartDial(s, i)
      case DialReturns(i) => Answers(s, i)
      case DialRaises(i) => DialFails(s, i, false)
      case Frame(call, order, failing) => FanOut(s, call, order, failing)
      case PumpEnds(call) => s.(pumps := s.pumps[call := true])
      case IdleStarts(call) => IdleRound(s, call)
      case IdleWakes(call) => s.(idles := s.idles[call := Sleeping(s.now)])
      case GraceOver(call) => if Viewers(s) == 0 then s.(idles := s.idles[call := Returned]) else IdleRound(s, call)
      case WaitReturns(i) =>
        var call := s.episodes[i].call.value;
        StopRelaying(s, i, call in s.idles && s.idles[call].Returned?, false)
      case PumpEnded(i) =>
        With(s, i, s.episodes[i].(pc := EndingIdle(s.episodes[i].pc.left, s.episodes[i].pc.cancelled)))
      case IdleEnded(i) =>
        if s.episodes[i].pc.cancelled then BeginFinalClose(s, i) else BeginClose(s, i, s.episodes[i].pc.left)
      case Closed(i) => CloseDone(s, i, s.episodes[i].pc.left)
      case FinallyClosed(i) => Finish(s, i)
      case IsCancelled(i) => Cancel(s, i)
      case IsAsked(i) => Ask(s, i)
      case Stops => s.(clients := map[], stopped := true)
      case Tick(d) => s.(now := s.now + d)
  }

  function Exec(steps: seq<Step>): Relay {
    if steps == [] then Fresh else Apply(Exec(steps[..|steps| - 1]), steps[|steps| - 1])
  }

  // ---------------------------------------------------------------- the panel's one line

  /** What the panel's line to us is doing, and how many calls there were on it. */
  datatype LineState = Free | Ringing | Up(call: nat, generation: nat)
  datatype Line = Line(state: LineState, calls: nat)

  /** The line after a log, or None if the log wanted more of it than one call at a time, numbered in order; with a
      frame only from the call that is up, stamped with the generation that call was answered with. */
  function LineAfter(log: seq<Act>): Option<Line> {
    if log == [] then Some(Line(Free, 0))
    else
      var before := LineAfter(log[..|log| - 1]);
      if before.None? then None else LineStep(before.value, log[|log| - 1])
  }

  function LineStep(line: Line, act: Act): Option<Line> {
    match act
    case Dial(_) => if line.state.Free? then Some(line.(state := Ringing)) else None
    case DialFailed => if line.state.Ringing? then Some(line.(state := Free)) else None
    case Answer(call, generation) =>
      if line.state.Ringing? && call == line.calls && generation == call + 1 then
        Some(Line(Up(call, generation), call + 1))
      else None
    case HangUp(call) => if line.state.Up? && line.state.call == call then Some(line.(state := Free)) else None
    case Sent(_, call, generation) => if line.state == Up(call, generation) then Some(line) else None
  }

  lemma LineAppend(log: seq<Act>, act: Act)
    ensures LineAfter(log + [act]) == (if LineAfter(log).None? then None else LineStep(LineAfter(log).value, act))
  {
    assert (log + [act])[..|log|] == log;
  }

  lemma {:induction false} LineSent(log: seq<Act>, order: seq<nat>, clients: map<nat, bool>, failing: set<nat>,
                                    call: nat, generation: nat)
    requires LineAfter(log).Some? && LineAfter(log).value.state == Up(call, generation)
    ensures LineAfter(log + SentTo(order, clients, failing, call, generation)) == LineAfter(log)
    decreases |order|
  {
    if order == [] {
      assert log + [] == log;
    } else {
      var c := order[0];
      var first := SentOne(c, clients, failing, call, generation);
      var rest := SentTo(order[1..], clients, failing, call, generation);
      assert log + (first + rest) == (log + first) + rest;
      if first == [] {
        assert log + first == log;
      } else {
        LineAppend(log, Sent(c, call, generation));
      }
      LineSent(log + first, order[1..], clients, failing, call, generation);
    }
  }

  // ---------------------------------------------------------------- the invariant

  /** What an episode's owner is doing on the line. */
  function LineOf(e: Episode): LineState {
    match e.pc
    case Dialling => Ringing
    case Relaying => UpWith(e)
    case EndingPump(_, _) => UpWith(e)
    case EndingIdle(_, _) => UpWith(e)
    case _ => Free
  }

  function UpWith(e: Episode): LineState {
    if e.call.Some? then Up(e.call.value, e.call.value + 1) else Free
  }

  predicate EpisodeOk(e: Episode) {
    && (e.pc.NotStarted? ==> !e.started && !e.ready && e.call.None?)
    && (e.pc.Finished? ==> (e.ready <==> e.started))
    && (!e.pc.NotStarted? && !e.pc.Finished? ==> e.started)
    && (e.pc.Dialling? || e.pc.Closing? ==> e.call.None?)
    && (e.pc.Relaying? || e.pc.EndingPump? || e.pc.EndingIdle? || e.pc.FinalClosing? ==> e.call.Some?)
    && (!e.pc.NotStarted? && !e.pc.Dialling? && !e.pc.Finished? ==> e.ready)
    && (e.pc.FinalClosing? || ((e.pc.EndingPump? || e.pc.EndingIdle?) && e.pc.cancelled) ==> e.cancelling)
  }

  /** The call being relayed, if one is. */
  function Relayed(s: Relay): set<nat> {
    if Live(s).Some? && s.episodes[Live(s).value].pc.Relaying? then CallOf(s, Live(s).value) else {}
  }

  predicate IdleOk(s: Relay, call: nat)
    requires call in s.idles
  {
    && (s.idles[call].Blocked? && s.clients == map[] && !s.stopped ==> s.idleSet)
    && (s.idles[call].Sleeping? ==> s.idles[call].since <= s.now)
  }

  /** The pump and the idle watch of the call being relayed are all there is. */
  predicate WatchOk(s: Relay) {
    && s.pumps.Keys == Relayed(s) && s.idles.Keys == Relayed(s)
    && (forall call :: call in s.idles ==> IdleOk(s, call))
  }

  ghost predicate Inv(s: Relay) {
    && (s.current.Some? ==> s.current.value < |s.episodes|)
    && (forall i :: 0 <= i < |s.episodes| ==> EpisodeOk(s.episodes[i]))
    && (forall i :: 0 <= i < |s.episodes| && !s.episodes[i].pc.Finished? ==> s.current == Some(i))
    && LineAfter(s.log) == Some(Line(if Live(s).Some? then LineOf(s.episodes[Live(s).value]) else Free, s.answered))
    && s.generation == s.answered
    && (Live(s).Some? && LineOf(s.episodes[Live(s).value]).Up? ==>
          LineOf(s.episodes[Live(s).value]).call == s.answered - 1)
    && WatchOk(s)
    && (s.stopped ==> s.clients == map[])
  }

  /** A step of the owner of the one live episode. */
  lemma OwnerKeeps(s: Relay, s': Relay, i: nat, e: Episode, acts: seq<Act>)
    requires Inv(s) && i < |s.episodes| && Live(s) == Some(i)
    requires s'.episodes == s.episodes[i := e] && EpisodeOk(e)
    requires s'.current == (if e.pc.Finished? && !s'.current.Some? then None else s.current)
    requires LineAfter(s.log + acts) == Some(Line(LineOf(e), s'.answered)) && s'.log == s.log + acts
    requires s'.generation == s'.answered && (LineOf(e).Up? ==> LineOf(e).call == s'.answered - 1)
    requires s'.clients == s.clients && s'.stopped == s.stopped
    requires WatchOk(s')
    ensures Inv(s')
  {
    hide WatchOk;
    forall j | 0 <= j < |s'.episodes| ensures EpisodeOk(s'.episodes[j]) {
      assert j != i ==> EpisodeOk(s.episodes[j]);
    }
    assert forall j :: 0 <= j < |s.episodes| && j != i ==> s.episodes[j].pc.Finished?;
  }

  lemma OwnerIsLive(s: Relay, i: nat)
    requires Inv(s) && i < |s.episodes| && !s.episodes[i].pc.Finished?
    ensures Live(s) == Some(i) && EpisodeOk(s.episodes[i])
  {
  }

  lemma SameLog(log: seq<Act>)
    ensures log + [] == log
  {
  }

  lemma DialKeeps(s: Relay, i: nat)
    requires Inv(s) && i < |s.episodes| && (s.episodes[i].pc.NotStarted? || s.episodes[i].pc.Closing?)
    ensures Inv(StartDial(s, i))
  {
    OwnerIsLive(s, i);
    LineAppend(s.log, Dial(s.episodes[i].target));
    OwnerKeeps(s, StartDial(s, i), i, StartDial(s, i).episodes[i], [Dial(s.episodes[i].target)]);
  }

  lemma AnswersKeeps(s: Relay, i: nat)
    requires Inv(s) && At(s, i, Dialling)
    ensures Inv(Answers(s, i))
  {
    OwnerIsLive(s, i);
    LineAppend(s.log, Answer(s.answered, s.generation + 1));
    OwnerKeeps(s, Answers(s, i), i, Answers(s, i).episodes[i], [Answer(s.answered, s.generation + 1)]);
  }

  lemma DialFailsKeeps(s: Relay, i: nat, cancelled: bool)
    requires Inv(s) && At(s, i, Dialling)
    ensures Inv(DialFails(s, i, cancelled))
  {
    OwnerIsLive(s, i);
    LineAppend(s.log, DialFailed);
    OwnerKeeps(s, DialFails(s, i, cancelled), i, DialFails(s, i, cancelled).episodes[i], [DialFailed]);
  }

  lemma FinishKeeps(s: Relay, i: nat)
    requires Inv(s) && i < |s.episodes| && (s.episodes[i].pc.Closing? || s.episodes[i].pc.FinalClosing?)
    ensures Inv(Finish(s, i))
  {
    OwnerIsLive(s, i);
    SameLog(s.log);
    OwnerKeeps(s, Finish(s, i), i, Finish(s, i).episodes[i], []);
  }

  /** A change of where the owner is that does not show on the line. */
  lemma MoveKeeps(s: Relay, s': Relay, i: nat)
    requires Inv(s) && i < |s.episodes| && !s.episodes[i].pc.Finished?
    requires |s'.episodes| == |s.episodes| && s'.episodes == s.episodes[i := s'.episodes[i]]
    requires EpisodeOk(s'.episodes[i])
    requires LineOf(s'.episodes[i]) == LineOf(s.episodes[i])
    requires s' == s.(episodes := s'.episodes, pumps := s'.pumps, idles := s'.idles) && WatchOk(s')
    ensures Inv(s')
  {
    OwnerIsLive(s, i);
    SameLog(s.log);
    OwnerKeeps(s, s', i, s'.episodes[i], []);
  }

  lemma HangUpKeeps(s: Relay, i: nat, left: bool)
    requires Inv(s) && i < |s.episodes| && (s.episodes[i].pc.EndingPump? || s.episodes[i].pc.EndingIdle?)
    ensures Inv(BeginClose(s, i, left)) && (s.episodes[i].cancelling ==> Inv(BeginFinalClose(s, i)))
  {
    OwnerIsLive(s, i);
    LineAppend(s.log, HangUp(s.episodes[i].call.value));
    OwnerKeeps(s, BeginClose(s, i, left), i, BeginClose(s, i, left).episodes[i], HangUpOf(s, i));
    if s.episodes[i].cancelling {
      OwnerKeeps(s, BeginFinalClose(s, i), i, BeginFinalClose(s, i).episodes[i], HangUpOf(s, i));
    }
  }

  lemma CancelKeeps(s: Relay, i: nat)
    requires Inv(s) && i < |s.episodes|
    ensures Inv(Cancel(s, i))
  {
    if !s.episodes[i].pc.Finished? {
      AskKeeps(s, i);
      hide Inv;
      CutShortKeeps(Ask(s, i), i);
    }
  }

  lemma AskKeeps(s: Relay, i: nat)
    requires Inv(s) && i < |s.episodes| && !s.episodes[i].pc.Finished?
    ensures Inv(Ask(s, i))
  {
    OwnerIsLive(s, i);
    MoveKeeps(s, Ask(s, i), i);
  }

  lemma CutShortKeeps(s: Relay, i: nat)
    requires Inv(s) && i < |s.episodes| && s.episodes[i].cancelling
    ensures Inv(CutShort(s, i))
  {
    hide DialFails, BeginFinalClose, Finish;
    match s.episodes[i].pc
    case NotStarted => EndsKeeps(s, i);
    case Dialling => DialFailsKeeps(s, i, true);
    case Relaying => StopKeeps(s, i, false, true);
    case EndingPump(_, _) => HangUpKeeps(s, i, false);
    case EndingIdle(_, _) => HangUpKeeps(s, i, false);
    case Closing(_) => FinishKeeps(s, i);
    case FinalClosing => EndsKeeps(s, i);
    case Finished =>
  }

  lemma EndsKeeps(s: Relay, i: nat)
    requires Inv(s) && i < |s.episodes| && (s.episodes[i].pc.NotStarted? || s.episodes[i].pc.FinalClosing?)
    ensures Inv(With(s, i, s.episodes[i].(pc := Finished)))
  {
    OwnerIsLive(s, i);
    MoveKeeps(s, With(s, i, s.episodes[i].(pc := Finished)), i);
  }

  lemma StopKeeps(s: Relay, i: nat, left: bool, cancelled: bool)
    requires Inv(s) && At(s, i, Relaying) && (cancelled ==> s.episodes[i].cancelling)
    ensures Inv(StopRelaying(s, i, left, cancelled))
  {
    OwnerIsLive(s, i);
    MoveKeeps(s, StopRelaying(s, i, left, cancelled), i);
  }

  /** A step that only concerns the clients, the pump and the idle watch. */
  lemma ClientsKeep(s: Relay, s': Relay)
    requires Inv(s)
    requires s' == s.(clients := s'.clients, idleSet := s'.idleSet, pumps := s'.pumps, idles := s'.idles,
                      now := s'.now, stopped := s'.stopped, log := s'.log)
    requires LineAfter(s'.log) == LineAfter(s.log)
    requires s'.pumps.Keys == s.pumps.Keys && s'.idles.Keys == s.idles.Keys
    requires forall call :: call in s'.idles ==> IdleOk(s', call)
    requires s'.stopped ==> s'.clients == map[]
    ensures Inv(s')
  {
  }

  lemma RequestKeeps(s: Relay, target: string)
    requires Inv(s)
    ensures Inv(Request(s, target))
  {
    var s' := Request(s, target);
    if Live(s).None? {
      forall j | 0 <= j < |s'.episodes| ensures EpisodeOk(s'.episodes[j]) {
        assert j < |s.episodes| ==> EpisodeOk(s.episodes[j]);
      }
    }
  }

  lemma {:induction false} DropAllOnly(s: Relay, dead: seq<nat>)
    ensures var s' := DropAll(s, dead);
            && s' == s.(clients := s'.clients, idleSet := s'.idleSet)
            && (s.idleSet ==> s'.idleSet) && (s'.clients == map[] ==> s'.idleSet || s.clients == map[])
            && (s.clients == map[] ==> s'.clients == map[])
    decreases |dead|
  {
    if dead != [] {
      EmptyPlaysNothing(Drop(s, dead[0]).clients);
      DropAllOnly(Drop(s, dead[0]), dead[1..]);
    }
  }

  lemma FrameKeeps(s: Relay, call: nat, order: seq<nat>, failing: set<nat>)
    requires Inv(s) && Pumping(s, call)
    ensures Inv(FanOut(s, call, order, failing))
  {
    var s' := FanOut(s, call, order, failing);
    var sent := s.(log := s.log + SentTo(order, s.clients, failing, call, s.generation));
    OwnerIsLive(s, s.current.value);
    LineSent(s.log, order, s.clients, failing, call, s.generation);
    DropAllOnly(sent, DeadOf(order, s.clients, failing));
    forall c | c in s'.idles ensures IdleOk(s', c) {
      assert IdleOk(s, c);
    }
    ClientsKeep(s, s');
  }

  lemma EmptyPlaysNothing(clients: map<nat, bool>)
    ensures clients == map[] ==> |Playing(clients)| == 0
  {
  }

  lemma StepKeeps(s: Relay, step: Step)
    requires Inv(s)
    ensures Inv(Apply(s, step))
  {
    if Enabled(s, step) {
      match step {
        case Starts(_) => OwnerStepKeeps(s, step);
        case DialReturns(_) => OwnerStepKeeps(s, step);
        case DialRaises(_) => OwnerStepKeeps(s, step);
        case WaitReturns(_) => OwnerStepKeeps(s, step);
        case PumpEnded(_) => OwnerStepKeeps(s, step);
        case IdleEnded(_) => OwnerStepKeeps(s, step);
        case Closed(_) => OwnerStepKeeps(s, step);
        case FinallyClosed(_) => OwnerStepKeeps(s, step);
        case IsCancelled(_) => OwnerStepKeeps(s, step);
        case IsAsked(_) => OwnerStepKeeps(s, step);
        case Asks(target) => RequestKeeps(s, target);
        case Frame(call, order, failing) => FrameKeeps(s, call, order, failing);
        case _ => ClientStepKeeps(s, step);
      }
    }
  }

  predicate OwnerStep(step: Step) {
    || step.Starts? || step.DialReturns? || step.DialRaises? || step.WaitReturns? || step.PumpEnded? || step.IdleEnded?
    || step.Closed? || step.FinallyClosed? || step.IsCancelled? || step.IsAsked?
  }

  lemma OwnerStepKeeps(s: Relay, step: Step)
    requires Inv(s) && Enabled(s, step) && OwnerStep(step)
    ensures Inv(Apply(s, step))
  {
    hide StartDial, Answers, DialFails, BeginClose, BeginFinalClose, Finish, Cancel, Ask, StopRelaying;
    match step
    case Starts(i) => DialKeeps(s, i);
    case DialReturns(i) => AnswersKeeps(s, i);
    case DialRaises(i) => DialFailsKeeps(s, i, false);
    case WaitReturns(i) =>
      var call := s.episodes[i].call.value;
      StopKeeps(s, i, call in s.idles && s.idles[call].Returned?, false);
    case PumpEnded(i) => EndingKeeps(s, i);
    case IdleEnded(i) =>
      OwnerIsLive(s, i);
      HangUpKeeps(s, i, s.episodes[i].pc.left);
    case Closed(i) => if s.episodes[i].pc.left || Viewers(s) == 0 { FinishKeeps(s, i); } else { DialKeeps(s, i); }
    case FinallyClosed(i) => FinishKeeps(s, i);
    case IsCancelled(i) => CancelKeeps(s, i);
    case IsAsked(i) => AskKeeps(s, i);
  }

  lemma ClientStepKeeps(s: Relay, step: Step)
    requires Inv(s) && Enabled(s, step) && !OwnerStep(step) && !step.Asks? && !step.Frame?
    ensures Inv(Apply(s, step))
  {
    match step {
      case Connects(_) => ViewersKeep(s, Apply(s, step));
      case Plays(_) => ViewersKeep(s, Apply(s, step));
      case Leaves(c) =>
        EmptyPlaysNothing(Apply(s, step).clients);
        ViewersKeep(s, Apply(s, step));
      case Stops => ViewersKeep(s, Apply(s, step));
      case Tick(_) => ViewersKeep(s, Apply(s, step));
      case PumpEnds(_) => ViewersKeep(s, Apply(s, step));
      case _ => IdleStepKeeps(s, step);
    }
  }

  /** The clients come and go, and time passes, without harm to the idle watch. */
  lemma ViewersKeep(s: Relay, s': Relay)
    requires Inv(s)
    requires s' == s.(clients := s'.clients, idleSet := s'.idleSet, pumps := s'.pumps, now := s'.now,
                      stopped := s'.stopped)
    requires s'.pumps.Keys == s.pumps.Keys && s'.now >= s.now && (s.idleSet ==> s'.idleSet)
    requires s'.clients == map[] ==> s'.idleSet || s'.stopped || s.clients == map[]
    requires (s.stopped ==> s'.stopped) && (s'.stopped ==> s'.clients == map[])
    ensures Inv(s')
  {
    forall c | c in s'.idles ensures IdleOk(s', c) {
      assert IdleOk(s, c);
    }
    ClientsKeep(s, s');
  }

  lemma IdleStepKeeps(s: Relay, step: Step)
    requires Inv(s) && Enabled(s, step) && (step.IdleStarts? || step.IdleWakes? || step.GraceOver?)
    ensures Inv(Apply(s, step))
  {
    var s' := Apply(s, step);
    assert s.idles.Keys == {step.call} by {
      assert step.call in Relayed(s);
    }
    assert IdleOk(s', step.call);
    ClientsKeep(s, s');
  }

  lemma EndingKeeps(s: Relay, i: nat)
    requires Inv(s) && i < |s.episodes| && s.episodes[i].pc.EndingPump?
    ensures Inv(Apply(s, PumpEnded(i)))
  {
    OwnerIsLive(s, i);
    MoveKeeps(s, Apply(s, PumpEnded(i)), i);
  }

  lemma {:induction false} Reachable(steps: seq<Step>)
    ensures Inv(Exec(steps))
  {
    if steps != [] {
      Reachable(steps[..|steps| - 1]);
      StepKeeps(Exec(steps[..|steps| - 1]), steps[|steps| - 1]);
    }
  }

  // ---------------------------------------------------------------- the results

  predicate Unfinished(s: Relay, i: nat) {
    i < |s.episodes| && !s.episodes[i].pc.Finished?
  }

  /** Over every schedule of requests, viewers, calls ending, redials and cancellations: at most one episode has its
      owner running, and the log asks no more of the panel than one call at a time. */
  lemma OneCallAtATime(steps: seq<Step>)
    ensures var s := Exec(steps);
            && LineAfter(s.log).Some?
            && (forall i, j :: Unfinished(s, i) && Unfinished(s, j) ==> i == j)
  {
    Reachable(steps);
  }

  lemma {:induction false} LinePrefix(log: seq<Act>, n: nat)
    requires LineAfter(log).Some? && n <= |log|
    ensures LineAfter(log[..n]).Some?
  {
    if n < |log| {
      LinePrefix(log[..|log| - 1], n);
      assert log[..|log| - 1][..n] == log[..n];
    } else {
      assert log[..n] == log;
    }
  }

  /** Whether `call` is up when `n` entries of the log are in. */
  predicate UpAt(log: seq<Act>, n: nat, call: nat) {
    && n <= |log| && LineAfter(log[..n]).Some?
    && LineAfter(log[..n]).value.state.Up? && LineAfter(log[..n]).value.state.call == call
  }

  /** A call that is up stays up until it is hung up. */
  lemma {:induction false} UpUntilHungUp(log: seq<Act>, call: nat, p: nat, q: nat)
    requires LineAfter(log).Some? && p <= q <= |log| && UpAt(log, p, call)
    ensures UpAt(log, q, call) || exists m :: p <= m < q && log[m] == HangUp(call)
    decreases q - p
  {
    if p < q {
      LinePrefix(log, p + 1);
      assert log[..p + 1][..p] == log[..p];
      if log[p] != HangUp(call) {
        UpUntilHungUp(log, call, p + 1, q);
      }
    }
  }

  /** A call that is up was answered, and not hung up since. */
  lemma {:induction false} UpSinceAnswered(log: seq<Act>, q: nat, call: nat)
    requires LineAfter(log).Some? && UpAt(log, q, call)
    ensures LineAfter(log[..q]).value.state == Up(call, call + 1)
    ensures exists p :: 0 <= p < q && log[p] == Answer(call, call + 1)
                        && forall m :: p <= m < q ==> log[m] != HangUp(call)
  {
    LinePrefix(log, q);
    assert q > 0 && log[..q][..q - 1] == log[..q - 1];
    if log[q - 1].Answer? {
      assert log[q - 1] == Answer(call, call + 1);
    } else {
      UpSinceAnswered(log, q - 1, call);
      var p :| 0 <= p < q - 1 && log[p] == Answer(call, call + 1)
               && forall m :: p <= m < q - 1 ==> log[m] != HangUp(call);
    }
  }

  /** The line just before an entry of a log. */
  lemma LineBefore(log: seq<Act>, q: nat)
    requires LineAfter(log).Some? && q < |log|
    ensures LineAfter(log[..q]).Some? && LineStep(LineAfter(log[..q]).value, log[q]).Some?
    ensures LineAfter(log[..q + 1]) == LineStep(LineAfter(log[..q]).value, log[q])
  {
    LinePrefix(log, q);
    LinePrefix(log, q + 1);
    assert log[..q + 1][..q] == log[..q];
  }

  /** In particular, by the time the factory is asked for a call, every call it returned before has had its close
      begun. */
  lemma ClosedBeforeDialling(steps: seq<Step>, p: nat, q: nat)
    requires p < q < |Exec(steps).log| && Exec(steps).log[p].Answer? && Exec(steps).log[q].Dial?
    ensures exists m :: p < m < q && Exec(steps).log[m] == HangUp(Exec(steps).log[p].call)
  {
    var log := Exec(steps).log;
    Reachable(steps);
    hide Exec;
    LineBefore(log, p);
    LineBefore(log, q);
    assert UpAt(log, p + 1, log[p].call);
    UpUntilHungUp(log, log[p].call, p + 1, q);
  }

  /** And every frame a client gets was moved by the pump of a call that had been answered and was not hung up, and
      bears the generation that this call was answered with. */
  lemma FramesBearTheirCall(steps: seq<Step>, q: nat)
    requires q < |Exec(steps).log| && Exec(steps).log[q].Sent?
    ensures var log := Exec(steps).log;
            exists p :: 0 <= p < q && log[p] == Answer(log[q].call, log[q].generation)
                        && forall m :: p <= m < q ==> log[m] != HangUp(log[q].call)
  {
    var log := Exec(steps).log;
    Reachable(steps);
    hide Exec;
    LineBefore(log, q);
    UpSinceAnswered(log, q, log[q].call);
  }

  /** No pump and no idle watch outlives its call: whichever is still running belongs to the call that is up, so there
      is at most one of each. */
  lemma NothingOutlivesItsCall(steps: seq<Step>, call: nat)
    requires call in Exec(steps).pumps || call in Exec(steps).idles
    ensures var s := Exec(steps);
            && LineAfter(s.log) == Some(Line(Up(call, s.generation), s.answered))
            && s.pumps.Keys == {call} && s.idles.Keys == {call}
  {
    Reachable(steps);
    hide Exec;
    OnlyOfTheLive(Exec(steps), call);
  }

  lemma OnlyOfTheLive(s: Relay, call: nat)
    requires Inv(s) && (call in s.pumps || call in s.idles)
    ensures LineAfter(s.log) == Some(Line(Up(call, s.generation), s.answered))
    ensures s.pumps.Keys == {call} && s.idles.Keys == {call}
  {
    assert call in Relayed(s);
    OwnerIsLive(s, s.current.value);
  }

  /** The call that is up is the latest, and the count of calls never falls. */
  lemma {:induction false} CallsOnlyRise(log: seq<Act>, p: nat)
    requires LineAfter(log).Some? && p <= |log|
    ensures LineAfter(log[..p]).Some? && LineAfter(log[..p]).value.calls <= LineAfter(log).value.calls
    ensures var line := LineAfter(log).value;
            line.state.Up? ==> line.state.call == line.calls - 1 && line.state.generation == line.calls
    decreases |log|
  {
    LinePrefix(log, p);
    if p < |log| {
      CallsOnlyRise(log[..|log| - 1], p);
      assert log[..|log| - 1][..p] == log[..p];
    } else {
      assert log[..p] == log;
      if log != [] {
        CallsOnlyRise(log[..|log| - 1], 0);
      }
    }
  }

  /** A call answered after another was hung up has a higher number. */
  lemma AnsweredLater(log: seq<Act>, m: nat, p: nat)
    requires LineAfter(log).Some? && m < p < |log| && log[m].HangUp? && log[p].Answer?
    ensures log[m].call < log[p].call
  {
    LineBefore(log, m);
    LineBefore(log, p);
    CallsOnlyRise(log[..m], 0);
    CallsOnlyRise(log[..p], m);
    assert log[..p][..m] == log[..m];
  }

  /** A call that is up was never hung up. */
  lemma NeverUpAgain(log: seq<Act>, m: nat, q: nat, call: nat)
    requires LineAfter(log).Some? && m < q <= |log| && UpAt(log, q, call)
    ensures log[m] != HangUp(call)
  {
    UpSinceAnswered(log, q, call);
    var p :| 0 <= p < q && log[p] == Answer(call, call + 1) && forall j :: p <= j < q ==> log[j] != HangUp(call);
    if m < p && log[m].HangUp? {
      AnsweredLater(log, m, p);
    }
  }

  lemma RisesBetween(log: seq<Act>, p: nat, m: nat, q: nat)
    requires LineAfter(log).Some? && p <= m < q <= |log|
    ensures LineAfter(log[..p]).Some? && LineAfter(log[..m]).Some? && LineAfter(log[..q]).Some?
    ensures LineStep(LineAfter(log[..m]).value, log[m]).Some?
    ensures LineAfter(log[..p]).value.calls <= LineAfter(log[..m]).value.calls <= LineAfter(log[..q]).value.calls
    ensures LineAfter(log[..m]).value.state.Up? ==>
              LineAfter(log[..m]).value.state.call == LineAfter(log[..m]).value.calls - 1
  {
    LineBefore(log, m);
    LinePrefix(log, q);
    CallsOnlyRise(log[..m], p);
    CallsOnlyRise(log[..q], m);
    assert log[..m][..p] == log[..p] && log[..q][..m] == log[..m];
  }

  /** So to a client the generation tells calls apart exactly: of two frames, the later never bears a lower one, and it
      bears a higher one exactly when a call was hung up in between. */
  lemma GenerationTellsCallsApart(steps: seq<Step>, p: nat, q: nat)
    requires p < q < |Exec(steps).log| && Exec(steps).log[p].Sent? && Exec(steps).log[q].Sent?
    ensures var log := Exec(steps).log;
            && log[p].generation <= log[q].generation
            && (log[p].generation < log[q].generation <==> exists m :: p < m < q && log[m].HangUp?)
  {
    hide Exec;
    var log := Exec(steps).log;
    Reachable(steps);
    LineBefore(log, p);
    LineBefore(log, q);
    var first, later := log[p].call, log[q].call;
    CallsOnlyRise(log[..p], 0);
    CallsOnlyRise(log[..q], p);
    assert log[..q][..p] == log[..p];
    UpUntilHungUp(log, first, p, q);
    if m :| p < m < q && log[m].HangUp? {
      RisesBetween(log, p, m, q);
      if first == later {
        NeverUpAgain(log, m, q, first);
      }
    }
  }

  /** A wake-up of the idle watch is never lost: if it waits and no client remains, its event is set. */
  lemma NoLostWakeUp(steps: seq<Step>, call: nat)
    requires call in Exec(steps).idles && Exec(steps).idles[call].Blocked?
    ensures var s := Exec(steps); s.clients == map[] && !s.stopped ==> Enabled(s, IdleWakes(call))
  {
    Reachable(steps);
    assert IdleOk(Exec(steps), call);
  }

  /** Whether the idle watch of this call has reported the clients gone. */
  predicate SaidGone(s: Relay, call: nat) {
    call in s.idles && s.idles[call].Returned?
  }

  /** It reports the clients gone exactly when a full grace has passed since it last woke and at that instant nobody is
      playing, and nothing else reports it in its stead. */
  lemma ReturnsAfterGrace(steps: seq<Step>, step: Step, call: nat)
    requires !SaidGone(Exec(steps), call)
    ensures var s := Exec(steps);
            SaidGone(Apply(s, step), call)
            <==> && step == GraceOver(call) && Viewers(s) == 0
                 && call in s.idles && s.idles[call].Sleeping? && s.now >= s.idles[call].since + 2.0
  {
    hide Exec, Answers, Request, BeginFinalClose, BeginClose, StartDial, Finish, FanOut, Cancel, DialFails,
         StopRelaying;
    var s := Exec(steps);
    if step != GraceOver(call) {
      OnlyGraceReturns(s, step, call);
    }
  }

  lemma OnlyGraceReturns(s: Relay, step: Step, call: nat)
    requires step != GraceOver(call)
    ensures SaidGone(Apply(s, step), call) ==> SaidGone(s, call)
  {
    if Enabled(s, step) {
      if step.Frame? {
        DropAllOnly(s.(log := s.log + SentTo(step.order, s.clients, step.failing, step.call, s.generation)),
                    DeadOf(step.order, s.clients, step.failing));
      } else if OwnerStep(step) {
        OwnersCancelOnly(s, step, call);
      } else {
        hide Request;
      }
    }
  }

  lemma OwnersCancelOnly(s: Relay, step: Step, call: nat)
    requires Enabled(s, step) && OwnerStep(step)
    ensures SaidGone(Apply(s, step), call) ==> SaidGone(s, call)
  {
  }

  /** A client that is connected and not playing does not keep the call: a run in which the watch reports the clients
      gone while client 0, still connected, has yet to ask for PLAY. */
  lemma SilentClientsDoNotCount(target: string)
    ensures var steps := [Asks(target), Starts(0), DialReturns(0), Connects(0), IdleStarts(0), Leaves(1), IdleWakes(0),
                          Tick(2.0), GraceOver(0)];
            SaidGone(Exec(steps), 0) && 0 in Exec(steps).clients
  {
    var start := [Asks(target), Starts(0), DialReturns(0)];
    var rest := [Connects(0), IdleStarts(0), Leaves(1), IdleWakes(0), Tick(IDLE_GRACE), GraceOver(0)];
    OneRelayed(target);
    ExecOn(start, rest);
    assert start + rest == [Asks(target), Starts(0), DialReturns(0), Connects(0), IdleStarts(0), Leaves(1),
                            IdleWakes(0), Tick(IDLE_GRACE), GraceOver(0)];
    SixSteps(Exec(start), Connects(0), IdleStarts(0), Leaves(1), IdleWakes(0), Tick(IDLE_GRACE), GraceOver(0));
    LeftWaiting(Exec(start));
  }

  lemma OneRelayed(target: string)
    ensures var s := Exec([Asks(target), Starts(0), DialReturns(0)]);
            && s.clients == map[] && !s.stopped && s.idles == map[0 := IdleNotStarted] && s.pumps == map[0 := false]
            && s.episodes == [Episode(target, Relaying, Some(0), true, false, true, true, false)]
            && s.current == Some(0)
  {
    var steps := [Asks(target), Starts(0), DialReturns(0)];
    assert steps[..2] == [Asks(target), Starts(0)] && steps[..2][..1] == [Asks(target)] && steps[..2][..1][..0] == [];
    var asked := Apply(Fresh, Asks(target));
    assert Exec(steps[..2][..1]) == asked;
    var dialling := Apply(asked, Starts(0));
    assert Exec(steps[..2]) == dialling;
  }

  lemma LeftWaiting(s: Relay)
    requires s.clients == map[] && !s.stopped && s.idles == map[0 := IdleNotStarted]
    ensures var end := Apply(Apply(Apply(Apply(Apply(Apply(s, Connects(0)), IdleStarts(0)), Leaves(1)), IdleWakes(0)),
                                   Tick(IDLE_GRACE)), GraceOver(0));
            SaidGone(end, 0) && 0 in end.clients
  {
    BlocksOnSilent(s);
    WakesAtLeave(Apply(Apply(s, Connects(0)), IdleStarts(0)));
    var woken := Apply(Apply(Apply(s, Connects(0)), IdleStarts(0)), Leaves(1));
    hide Apply;
    GraceEnds(woken);
  }

  lemma BlocksOnSilent(s: Relay)
    requires s.clients == map[] && !s.stopped && s.idles == map[0 := IdleNotStarted]
    ensures var blocked := Apply(Apply(s, Connects(0)), IdleStarts(0));
            blocked.clients == map[0 := false] && blocked.idles == map[0 := Blocked]
  {
  }

  lemma WakesAtLeave(s: Relay)
    requires s.clients == map[0 := false] && s.idles == map[0 := Blocked]
    ensures var woken := Apply(s, Leaves(1));
            woken.clients == map[0 := false] && woken.idles == map[0 := Blocked] && woken.idleSet
  {
    assert s.clients - {1} == s.clients && Playing(s.clients) == {};
  }

  lemma GraceEnds(s: Relay)
    requires s.clients == map[0 := false] && s.idles == map[0 := Blocked] && s.idleSet
    ensures var end := Apply(Apply(Apply(s, IdleWakes(0)), Tick(IDLE_GRACE)), GraceOver(0));
            SaidGone(end, 0) && 0 in end.clients
  {
    assert Playing(s.clients) == {};
    var sleeping := Apply(s, IdleWakes(0));
    assert sleeping == s.(idles := s.idles[0 := Sleeping(s.now)]);
    assert Apply(sleeping, Tick(IDLE_GRACE)) == sleeping.(now := s.now + IDLE_GRACE);
  }

  // ---------------------------------------------------------------- waiters

  /** From a state on. */
  function Run(s: Relay, steps: seq<Step>): Relay
    decreases |steps|
  {
    if steps == [] then s else Run(Apply(s, steps[0]), steps[1..])
  }

  lemma {:induction false} ExecOn(steps: seq<Step>, more: seq<Step>)
    ensures Exec(steps + more) == Run(Exec(steps), more)
    decreases |more|
  {
    if more == [] {
      assert steps + [] == steps;
    } else {
      assert steps + more == (steps + [more[0]]) + more[1..];
      assert (steps + [more[0]])[..|steps|] == steps;
      ExecOn(steps + [more[0]], more[1..]);
    }
  }

  /** Nothing that happens later touches an episode whose owner has finished. */
  lemma {:induction false} FinishedForGood(s: Relay, steps: seq<Step>, i: nat)
    requires At(s, i, Finished)
    ensures i < |Run(s, steps).episodes| && Run(s, steps).episodes[i] == s.episodes[i]
    decreases |steps|
  {
    if steps != [] {
      FinishedStays(s, steps[0], i);
      FinishedForGood(Apply(s, steps[0]), steps[1..], i);
    }
  }

  lemma FinishedStays(s: Relay, step: Step, i: nat)
    requires At(s, i, Finished)
    ensures i < |Apply(s, step).episodes| && Apply(s, step).episodes[i] == s.episodes[i]
  {
    if Enabled(s, step) {
      if OwnerStep(step) {
        OwnerStepElsewhere(s, step, i);
      } else if step.Frame? {
        DropAllEpisodes(s.(log := s.log + SentTo(step.order, s.clients, step.failing, step.call, s.generation)),
                        DeadOf(step.order, s.clients, step.failing));
      }
    }
  }

  lemma OwnerStepElsewhere(s: Relay, step: Step, i: nat)
    requires At(s, i, Finished) && OwnerStep(step) && Enabled(s, step)
    ensures i < |Apply(s, step).episodes| && Apply(s, step).episodes[i] == s.episodes[i]
  {
    assert step.IsCancelled? || step.episode != i;
    hide StartDial, Answers, DialFails, StopRelaying, BeginClose, BeginFinalClose, CloseDone, Finish, Cancel, Ask;
  }

  lemma {:induction false} DropAllEpisodes(s: Relay, dead: seq<nat>)
    ensures DropAll(s, dead).episodes == s.episodes
    decreases |dead|
  {
    if dead != [] {
      DropAllEpisodes(Drop(s, dead[0]), dead[1..]);
    }
  }

  /** Those who wait for an episode whose owner has finished are let go, unless it was cancelled before its first step:
      then, and only then, they wait for ever. */
  lemma WaitersHangExactlyWhen(steps: seq<Step>, i: nat)
    requires At(Exec(steps), i, Finished)
    ensures (forall more :: i < |Exec(steps + more).episodes| && !Exec(steps + more).episodes[i].ready)
            <==> !Exec(steps).episodes[i].started
  {
    var s := Exec(steps);
    Reachable(steps);
    forall more ensures i < |Exec(steps + more).episodes| && Exec(steps + more).episodes[i] == s.episodes[i] {
      ExecOn(steps, more);
      FinishedForGood(s, more, i);
    }
    assert EpisodeOk(s.episodes[i]) && steps + [] == steps;
    if s.episodes[i].started {
      assert Exec(steps + []).episodes[i].ready;
    }
  }

  /** It can happen to the first request of all. */
  lemma CancelledBeforeItsFirstStep(target: string)
    ensures var s := Exec([Asks(target), IsCancelled(0)]);
            At(s, 0, Finished) && !s.episodes[0].started && Live(s).None?
  {
    var steps := [Asks(target), IsCancelled(0)];
    assert steps[..1] == [Asks(target)] && steps[..1][..0] == [];
    assert Exec(steps[..1]) == Request(Fresh, target);
  }

  /** What happens by itself once the last client has gone. */
  function WindDown(s: Relay, i: nat, call: nat): seq<Step>
    requires call in s.idles
  {
    (match s.idles[call]
     case IdleNotStarted => [IdleStarts(call)]
     case Blocked => [IdleWakes(call)]
     case _ => [])
    + [Tick(2.0), GraceOver(call), WaitReturns(i), PumpEnded(i), IdleEnded(i), Closed(i)]
  }

  /** With everybody gone, a relayed call is over one grace later, without anything being cancelled: every wait on the
      way comes back by itself. */
  lemma EmptyRelayHangsUp(steps: seq<Step>, i: nat)
    requires At(Exec(steps), i, Relaying) && Exec(steps).clients == map[] && !Exec(steps).stopped
    ensures var s := Exec(steps);
            && s.episodes[i].call.Some? && s.episodes[i].call.value in s.idles
            && var more := WindDown(s, i, s.episodes[i].call.value);
               At(Exec(steps + more), i, Finished) && Live(Exec(steps + more)).None?
  {
    var s := Exec(steps);
    Reachable(steps);
    OwnerIsLive(s, i);
    var call := s.episodes[i].call.value;
    assert call in Relayed(s);
    ExecOn(steps, WindDown(s, i, call));
    AllGone(s, i, call);
  }

  /** Episode `i` relays this call, with its idle watch about to report, or to sleep out its grace. */
  predicate Winding(s: Relay, i: nat, call: nat) {
    && At(s, i, Relaying) && s.current == Some(i) && s.episodes[i].call == Some(call) && Viewers(s) == 0
    && call in s.idles && (s.idles[call].Returned? || (s.idles[call].Sleeping? && s.idles[call].since <= s.now))
  }

  lemma GraceRunsOut(s: Relay, i: nat, call: nat)
    requires Winding(s, i, call)
    ensures var down := [Tick(IDLE_GRACE), GraceOver(call), WaitReturns(i), PumpEnded(i), IdleEnded(i), Closed(i)];
            At(Run(s, down), i, Finished) && Live(Run(s, down)).None?
  {
    GracePasses(s, i, call);
    hide Apply, Run;
    SixSteps(s, Tick(IDLE_GRACE), GraceOver(call), WaitReturns(i), PumpEnded(i), IdleEnded(i), Closed(i));
    Winds(Apply(Apply(s, Tick(IDLE_GRACE)), GraceOver(call)), i, call);
  }

  lemma GracePasses(s: Relay, i: nat, call: nat)
    requires Winding(s, i, call)
    ensures var gone := Apply(Apply(s, Tick(IDLE_GRACE)), GraceOver(call));
            Winding(gone, i, call) && gone.idles[call].Returned?
  {
  }

  lemma Winds(s: Relay, i: nat, call: nat)
    requires Winding(s, i, call) && s.idles[call].Returned?
    ensures var end := Apply(Apply(Apply(Apply(s, WaitReturns(i)), PumpEnded(i)), IdleEnded(i)), Closed(i));
            At(end, i, Finished) && Live(end).None?
  {
    var ending := Apply(s, WaitReturns(i));
    assert At(ending, i, EndingPump(true, false)) && ending.current == Some(i);
    var ended := Apply(ending, PumpEnded(i));
    assert At(ended, i, EndingIdle(true, false)) && ended.current == Some(i);
    var closing := Apply(ended, IdleEnded(i));
    assert At(closing, i, Closing(true)) && closing.current == Some(i);
    ClosesGone(closing, i);
  }

  lemma ClosesGone(s: Relay, i: nat)
    requires At(s, i, Closing(true)) && s.current == Some(i)
    ensures At(Apply(s, Closed(i)), i, Finished) && Live(Apply(s, Closed(i))).None?
  {
  }

  lemma SixSteps(s: Relay, a: Step, b: Step, c: Step, d: Step, e: Step, f: Step)
    ensures Run(s, [a, b, c, d, e, f]) == Apply(Apply(Apply(Apply(Apply(Apply(s, a), b), c), d), e), f)
  {
    hide Apply;
    TwoSteps(s, a, b, [c, d, e, f]);
    assert [a, b] + [c, d, e, f] == [a, b, c, d, e, f];
    var s2 := Apply(Apply(s, a), b);
    TwoSteps(s2, c, d, [e, f]);
    assert [c, d] + [e, f] == [c, d, e, f];
    TwoSteps(Apply(Apply(s2, c), d), e, f, []);
    assert [e, f] + [] == [e, f];
  }

  lemma TwoSteps(s: Relay, a: Step, b: Step, rest: seq<Step>)
    ensures Run(s, [a, b] + rest) == Run(Apply(Apply(s, a), b), rest)
  {
    hide Apply;
    RunFirst(s, a, [b] + rest);
    assert [a] + ([b] + rest) == [a, b] + rest;
    RunFirst(Apply(s, a), b, rest);
  }

  lemma RunFirst(s: Relay, step: Step, rest: seq<Step>)
    ensures Run(s, [step] + rest) == Run(Apply(s, step), rest)
  {
    hide Apply;
    assert ([step] + rest)[1..] == rest;
  }

  lemma AllGone(s: Relay, i: nat, call: nat)
    requires Inv(s) && At(s, i, Relaying) && s.clients == map[] && !s.stopped
    requires s.episodes[i].call == Some(call) && call in s.idles
    ensures At(Run(s, WindDown(s, i, call)), i, Finished) && Live(Run(s, WindDown(s, i, call))).None?
  {
    var down := [Tick(IDLE_GRACE), GraceOver(call), WaitReturns(i), PumpEnded(i), IdleEnded(i), Closed(i)];
    EmptyPlaysNothing(s.clients);
    OwnerIsLive(s, i);
    assert IdleOk(s, call);
    if s.idles[call].IdleNotStarted? {
      assert WindDown(s, i, call)[1..] == down;
      GraceRunsOut(Apply(s, IdleStarts(call)), i, call);
    } else if s.idles[call].Blocked? {
      assert WindDown(s, i, call)[1..] == down;
      GraceRunsOut(Apply(s, IdleWakes(call)), i, call);
    } else {
      assert WindDown(s, i, call) == down;
      GraceRunsOut(s, i, call);
    }
  }
}
