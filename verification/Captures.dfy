/** The pictures and clips owed after a ring (hub.py, _on_ring and _on_call_end), fed by the reports of one session. */
module Captures {
  import opened Bytes
  import opened Ctp
  import opened Calls
  import opened CallProperties

  datatype Kind = Snapshot | Clip

  /** A capture that was started, and the call whose end started it. */
  datatype Capture = Capture(kind: Kind, target: string, call: nat)

  datatype Hub = Hub(
    owed: map<bytes, string>,    // _captures_owed
    snapshotOnRing: bool,
    recordOnRing: bool,
    book: Option<set<string>>,   // the entrances of the configuration, once it is read
    started: seq<Capture>,
    promised: set<nat>)          // the calls whose own ring made an entry

  function IsEntranceCall(h: Hub, e: RingEvent): bool {
    if e.tag == TAG_FLOOR_CALL then false
    else if e.tag == TAG_ENTRANCE then true
    else h.book.Some? && e.origin in h.book.value
  }

  function OnRing(h: Hub, call: nat, e: RingEvent): Hub {
    if IsEntranceCall(h, e) && (h.snapshotOnRing || h.recordOnRing) then
      h.(owed := h.owed[e.connection := e.origin], promised := h.promised + {call})
    else h
  }

  function Started(h: Hub, call: nat, target: string): seq<Capture> {
    (if h.snapshotOnRing then [Capture(Snapshot, target, call)] else [])
    + (if h.recordOnRing then [Capture(Clip, target, call)] else [])
  }

  function OnCallEnd(h: Hub, call: nat, e: RingEvent): Hub {
    if e.connection in h.owed then
      h.(owed := h.owed - {e.connection}, started := h.started + Started(h, call, h.owed[e.connection]))
    else h
  }

  /** What happens to the hub: a report from the session, or the user changing what a ring should start. */
  datatype Event = Told(report: Report) | Options(snapshot: bool, record: bool)

  function React(h: Hub, e: Event): Hub {
    match e
    case Told(Ring(call, event)) => OnRing(h, call, event)
    case Told(End(call, event, _)) => OnCallEnd(h, call, event)
    case Options(snapshot, record) => h.(snapshotOnRing := snapshot, recordOnRing := record)
  }

  function After(h: Hub, events: seq<Event>): Hub {
    if events == [] then h else React(After(h, events[..|events| - 1]), events[|events| - 1])
  }

  /** The reports among the events, in order. */
  function ReportsOf(events: seq<Event>): seq<Report> {
    if events == [] then []
    else
      var front := ReportsOf(events[..|events| - 1]);
      var last := events[|events| - 1];
      if last.Told? then front + [last.report] else front
  }

  // ---------------------------------------------------------------- what the entries mean

  /** Whether some call has ended on this id. */
  predicate EndedOn(trace: seq<Report>, id: bytes) {
    exists j :: 0 <= j < |trace| && trace[j].End? && trace[j].event.connection == id
  }

  /** An entry is there for an open call that promised one, or is left over from before and no call has ended on its id
      since; its target is the origin of that call, or what was left over. */
  ghost predicate OwedExactly(h: Hub, trace: seq<Report>, stale: map<bytes, string>)
    requires OpenCalls(trace).Some?
  {
    var open := OpenCalls(trace).value;
    forall id: bytes :: OwedOn(h, trace, open, stale, id)
  }

  ghost predicate OwedOn(h: Hub, trace: seq<Report>, open: map<bytes, Report>, stale: map<bytes, string>, id: bytes) {
    var promised := id in open && open[id].call in h.promised;
    var left := id in stale && !EndedOn(trace, id);
    && (id in h.owed <==> promised || left)
    && (promised ==> h.owed[id] == open[id].event.origin)
    && (!promised && left ==> h.owed[id] == stale[id])
  }

  /** A capture is for a call that has ended, towards the origin of that call's own ring if its ring promised it, and
      otherwise towards what was left over on its id, of which it was the first call to end. */
  ghost predicate Rightful(h: Hub, trace: seq<Report>, stale: map<bytes, string>, c: Capture) {
    exists j :: 0 <= j < |trace| && trace[j].End? && trace[j].call == c.call && Earned(h, trace, stale, c, j)
  }

  ghost predicate Earned(h: Hub, trace: seq<Report>, stale: map<bytes, string>, c: Capture, j: nat)
    requires j < |trace|
  {
    var e := trace[j].event;
    if c.call in h.promised then c.target == e.origin
    else e.connection in stale && c.target == stale[e.connection] && !EndedOn(trace[..j], e.connection)
  }

  predicate OncePerKind(started: seq<Capture>) {
    forall i, j :: 0 <= i < j < |started| ==> started[i].call != started[j].call || started[i].kind != started[j].kind
  }

  ghost predicate Sound(h: Hub, trace: seq<Report>, stale: map<bytes, string>)
    requires OpenCalls(trace).Some?
  {
    && OwedExactly(h, trace, stale)
    && (forall j :: 0 <= j < |h.started| ==> Rightful(h, trace, stale, h.started[j]))
    && OncePerKind(h.started)
    && PromisedRang(h, trace)
  }

  ghost predicate NothingStarted(h: Hub) {
    h.started == [] && h.promised == {}
  }

  lemma EndedOnAppend(trace: seq<Report>, r: Report, id: bytes)
    ensures EndedOn(trace + [r], id) <==> EndedOn(trace, id) || (r.End? && r.event.connection == id)
  {
    var longer := trace + [r];
    assert longer[|trace|] == r;
    if EndedOn(trace, id) {
      var j :| 0 <= j < |trace| && trace[j].End? && trace[j].event.connection == id;
      assert longer[j] == trace[j];
    }
    if EndedOn(longer, id) {
      var j :| 0 <= j < |longer| && longer[j].End? && longer[j].event.connection == id;
      assert j < |trace| ==> longer[j] == trace[j];
    }
  }

  lemma RightfulStays(h: Hub, h': Hub, trace: seq<Report>, r: Report, stale: map<bytes, string>, c: Capture)
    requires Rightful(h, trace, stale, c) && (c.call in h'.promised <==> c.call in h.promised)
    ensures Rightful(h', trace + [r], stale, c)
  {
    var j :| 0 <= j < |trace| && trace[j].End? && trace[j].call == c.call && Earned(h, trace, stale, c, j);
    assert (trace + [r])[j] == trace[j] && (trace + [r])[..j] == trace[..j];
    assert Earned(h', trace + [r], stale, c, j);
  }

  /** The calls a ring has been promised for have rung. */
  ghost predicate PromisedRang(h: Hub, trace: seq<Report>) {
    forall i :: i in h.promised ==> exists j :: 0 <= j < |trace| && trace[j].Ring? && trace[j].call == i
  }

  lemma RingStep(h: Hub, trace: seq<Report>, stale: map<bytes, string>, call: nat, e: RingEvent)
    requires OpenCalls(trace + [Ring(call, e)]).Some? && RingsFresh(trace + [Ring(call, e)]) && RingsFresh(trace)
    requires OpenCalls(trace).Some? && Sound(h, trace, stale)
    ensures Sound(OnRing(h, call, e), trace + [Ring(call, e)], stale)
  {
    var r, h' := Ring(call, e), OnRing(h, call, e);
    EarlierCalls(trace, r);
    RingStepOwed(h, trace, stale, call, e);
    forall j | 0 <= j < |h'.started| ensures Rightful(h', trace + [r], stale, h'.started[j]) {
      assert Rightful(h, trace, stale, h.started[j]);
      RightfulStays(h, h', trace, r, stale, h.started[j]);
    }
    PromisedRangStays(h, h', trace, r);
  }

  lemma EarlierCalls(trace: seq<Report>, r: Report)
    requires r.Ring? && RingsFresh(trace + [r])
    ensures forall j :: 0 <= j < |trace| ==> trace[j].call < r.call
  {
    var longer := trace + [r];
    assert longer[|trace|] == r;
    forall j | 0 <= j < |trace| ensures trace[j].call < r.call {
      assert longer[j] == trace[j];
    }
  }

  lemma PromisedRangStays(h: Hub, h': Hub, trace: seq<Report>, r: Report)
    requires PromisedRang(h, trace)
    requires h'.promised == h.promised || (r.Ring? && h'.promised == h.promised + {r.call})
    ensures PromisedRang(h', trace + [r])
  {
    var longer := trace + [r];
    forall i | i in h'.promised ensures exists j :: 0 <= j < |longer| && longer[j].Ring? && longer[j].call == i {
      if i in h.promised {
        var j :| 0 <= j < |trace| && trace[j].Ring? && trace[j].call == i;
        assert longer[j] == trace[j];
      } else {
        assert longer[|trace|] == r;
      }
    }
  }

  lemma OpenAreEarlier(trace: seq<Report>, call: nat)
    requires OpenCalls(trace).Some? && RingsFresh(trace)
    requires forall j :: 0 <= j < |trace| ==> trace[j].call < call
    ensures forall id :: id in OpenCalls(trace).value ==> OpenCalls(trace).value[id].call < call
  {
    OneOpenPerCall(trace);
    var open := OpenCalls(trace).value;
    forall id | id in open ensures open[id].call < call {
      var j :| 0 <= j < |trace| && trace[j] == open[id];
    }
  }

  lemma RingOwedOn(h: Hub, trace: seq<Report>, open: map<bytes, Report>, stale: map<bytes, string>, call: nat,
                   e: RingEvent, id: bytes)
    requires OwedOn(h, trace, open, stale, id) && e.connection !in open
    requires id in open ==> open[id].call < call
    ensures OwedOn(OnRing(h, call, e), trace + [Ring(call, e)], open[e.connection := Ring(call, e)], stale, id)
            || call in h.promised
  {
    EndedOnAppend(trace, Ring(call, e), id);
  }

  lemma RingStepOwed(h: Hub, trace: seq<Report>, stale: map<bytes, string>, call: nat, e: RingEvent)
    requires OpenCalls(trace + [Ring(call, e)]).Some? && RingsFresh(trace)
    requires OpenCalls(trace).Some? && OwedExactly(h, trace, stale) && PromisedRang(h, trace)
    requires forall j :: 0 <= j < |trace| ==> trace[j].call < call
    ensures OwedExactly(OnRing(h, call, e), trace + [Ring(call, e)], stale)
  {
    var open := OpenCalls(trace).value;
    OpenCallsAppend(trace, Ring(call, e));
    OpenAreEarlier(trace, call);
    assert call !in h.promised;
    var h', longer, open' := OnRing(h, call, e), trace + [Ring(call, e)], open[e.connection := Ring(call, e)];
    forall id: bytes ensures OwedOn(h', longer, open', stale, id) {
      assert OwedOn(h, trace, open, stale, id);
      RingOwedOn(h, trace, open, stale, call, e, id);
    }
  }

  lemma RingsFreshPrefix(trace: seq<Report>, r: Report)
    requires RingsFresh(trace + [r])
    ensures RingsFresh(trace)
  {
    forall i, j | 0 <= i < j < |trace| && trace[j].Ring? ensures trace[i].call < trace[j].call {
      assert (trace + [r])[i] == trace[i] && (trace + [r])[j] == trace[j];
    }
  }

  lemma EndStep(h: Hub, trace: seq<Report>, stale: map<bytes, string>, call: nat, e: RingEvent, cause: Option<byte>)
    requires OpenCalls(trace + [End(call, e, cause)]).Some? && RingsFresh(trace + [End(call, e, cause)])
    requires OpenCalls(trace).Some? && Sound(h, trace, stale)
    ensures Sound(OnCallEnd(h, call, e), trace + [End(call, e, cause)], stale)
  {
    var r, h' := End(call, e, cause), OnCallEnd(h, call, e);
    EndStepOwed(h, trace, stale, call, e, cause);
    EndStepStarted(h, trace, stale, call, e, cause);
    PromisedRangStays(h, h', trace, r);
  }

  lemma EndStepOwed(h: Hub, trace: seq<Report>, stale: map<bytes, string>, call: nat, e: RingEvent,
                    cause: Option<byte>)
    requires OpenCalls(trace + [End(call, e, cause)]).Some? && RingsFresh(trace + [End(call, e, cause)])
    requires OpenCalls(trace).Some? && OwedExactly(h, trace, stale)
    ensures OwedExactly(OnCallEnd(h, call, e), trace + [End(call, e, cause)], stale)
  {
    var r, h' := End(call, e, cause), OnCallEnd(h, call, e);
    var open, open' := OpenCalls(trace).value, OpenCalls(trace + [r]).value;
    OpenCallsAppend(trace, r);
    forall k: bytes ensures OwedOn(h', trace + [r], open', stale, k) {
      assert OwedOn(h, trace, open, stale, k);
      EndedOnAppend(trace, r, k);
    }
  }

  lemma EndStepStarted(h: Hub, trace: seq<Report>, stale: map<bytes, string>, call: nat, e: RingEvent,
                       cause: Option<byte>)
    requires OpenCalls(trace + [End(call, e, cause)]).Some? && RingsFresh(trace + [End(call, e, cause)])
    requires OpenCalls(trace).Some? && Sound(h, trace, stale)
    ensures var h', longer := OnCallEnd(h, call, e), trace + [End(call, e, cause)];
            && (forall j :: 0 <= j < |h'.started| ==> Rightful(h', longer, stale, h'.started[j]))
            && OncePerKind(h'.started)
  {
    var r, h', id := End(call, e, cause), OnCallEnd(h, call, e), e.connection;
    var longer, open := trace + [r], OpenCalls(trace).value;
    OpenCallsAppend(trace, r);
    RingsFreshPrefix(trace, r);
    assert OwedOn(h, trace, open, stale, id) && open[id] == Ring(call, e);
    forall j | 0 <= j < |h'.started| ensures Rightful(h', longer, stale, h'.started[j]) {
      if j < |h.started| {
        RightfulStays(h, h', trace, r, stale, h.started[j]);
      } else {
        NewIsRightful(h', trace, stale, r, h'.started[j]);
      }
    }
    forall j | 0 <= j < |h.started| ensures h.started[j].call != call {
      EndedIsNotOpen(h, trace, stale, h.started[j], id);
    }
    MoreOncePerKind(h, call, h.started, if id in h.owed then h.owed[id] else "");
  }

  lemma NewIsRightful(h': Hub, trace: seq<Report>, stale: map<bytes, string>, r: Report, c: Capture)
    requires r.End? && c.call == r.call
    requires if c.call in h'.promised then c.target == r.event.origin
             else r.event.connection in stale && c.target == stale[r.event.connection]
                  && !EndedOn(trace, r.event.connection)
    ensures Rightful(h', trace + [r], stale, c)
  {
    var longer := trace + [r];
    assert longer[|trace|] == r && longer[..|trace|] == trace;
    assert Earned(h', longer, stale, c, |trace|);
  }

  lemma MoreOncePerKind(h: Hub, call: nat, started: seq<Capture>, target: string)
    requires OncePerKind(started) && forall j :: 0 <= j < |started| ==> started[j].call != call
    ensures OncePerKind(started + Started(h, call, target))
  {
  }

  lemma EndedIsNotOpen(h: Hub, trace: seq<Report>, stale: map<bytes, string>, c: Capture, id: bytes)
    requires OpenCalls(trace).Some? && RingsFresh(trace) && Rightful(h, trace, stale, c)
    requires id in OpenCalls(trace).value
    ensures OpenCalls(trace).value[id].call != c.call
  {
    var n :| 0 <= n < |trace| && trace[n].End? && trace[n].call == c.call && Earned(h, trace, stale, c, n);
    ClosedForGood(trace, n);
  }

  lemma {:induction false} AlwaysSound(h: Hub, events: seq<Event>)
    requires NothingStarted(h)
    requires OpenCalls(ReportsOf(events)).Some? && RingsFresh(ReportsOf(events))
    ensures Sound(After(h, events), ReportsOf(events), h.owed)
  {
    if events == [] {
      forall id: bytes ensures OwedOn(h, [], map[], h.owed, id) {}
    } else {
      var front, last := events[..|events| - 1], events[|events| - 1];
      if last.Told? {
        OpenCallsAppend(ReportsOf(front), last.report);
        RingsFreshPrefix(ReportsOf(front), last.report);
      }
      AlwaysSound(h, front);
      match last
      case Told(Ring(call, e)) =>
        RingStep(After(h, front), ReportsOf(front), h.owed, call, e);
      case Told(End(call, e, cause)) => EndStep(After(h, front), ReportsOf(front), h.owed, call, e, cause);
      case Options(_, _) => OptionsStep(After(h, front), After(h, events), ReportsOf(front), h.owed);
    }
  }

  lemma OptionsStep(h: Hub, h': Hub, trace: seq<Report>, stale: map<bytes, string>)
    requires OpenCalls(trace).Some? && Sound(h, trace, stale)
    requires h'.owed == h.owed && h'.started == h.started && h'.promised == h.promised
    ensures Sound(h', trace, stale)
  {
    var open := OpenCalls(trace).value;
    forall id: bytes ensures OwedOn(h', trace, open, stale, id) {
      assert OwedOn(h, trace, open, stale, id);
    }
    forall j | 0 <= j < |h'.started| ensures Rightful(h', trace, stale, h'.started[j]) {
      var c := h.started[j];
      assert Rightful(h, trace, stale, c);
      var n :| 0 <= n < |trace| && trace[n].End? && trace[n].call == c.call && Earned(h, trace, stale, c, n);
      assert Earned(h', trace, stale, c, n);
    }
  }

  // ---------------------------------------------------------------- the results

  /** The session and the hub side by side: a step of the session, whose reports reach the hub at once, or the user
      changing what a ring should start. */
  datatype Happening = OfSession(step: Step) | OfUser(snapshot: bool, record: bool)

  function StepsOf(all: seq<Happening>): seq<Step> {
    if all == [] then []
    else
      var front, last := StepsOf(all[..|all| - 1]), all[|all| - 1];
      if last.OfSession? then front + [last.step] else front
  }

  function Tell(reports: seq<Report>): seq<Event> {
    if reports == [] then [] else Tell(reports[..|reports| - 1]) + [Told(reports[|reports| - 1])]
  }

  ghost function EventsOf(all: seq<Happening>): seq<Event> {
    if all == [] then []
    else
      var front, last := all[..|all| - 1], all[|all| - 1];
      match last
      case OfUser(snapshot, record) => EventsOf(front) + [Options(snapshot, record)]
      case OfSession(step) =>
        var before, after := Exec(StepsOf(front)).trace, Exec(StepsOf(all)).trace;
        EventsOf(front) + Tell(if |before| <= |after| then after[|before|..] else [])
  }

  lemma {:induction false} ReportsOfTold(events: seq<Event>, reports: seq<Report>)
    ensures ReportsOf(events + Tell(reports)) == ReportsOf(events) + reports
  {
    if reports == [] {
      assert events + [] == events;
    } else {
      hide ReportsOf;
      var front, last := reports[..|reports| - 1], reports[|reports| - 1];
      assert reports == front + [last];
      ReportsOfTold(events, front);
      Regroup(events, Tell(front), Told(last));
      OneMoreTold(events + Tell(front), last);
      Regroup(ReportsOf(events), front, last);
    }
  }

  lemma Regroup<T>(a: seq<T>, b: seq<T>, x: T)
    ensures a + (b + [x]) == (a + b) + [x]
  {
  }

  lemma OneMoreTold(events: seq<Event>, report: Report)
    ensures ReportsOf(events + [Told(report)]) == ReportsOf(events) + [report]
  {
    assert (events + [Told(report)])[..|events|] == events;
  }

  /** The hub hears exactly what the session reports. */
  lemma {:induction false} HubHearsAll(all: seq<Happening>)
    ensures ReportsOf(EventsOf(all)) == Exec(StepsOf(all)).trace
  {
    hide Apply, ParseCtpPacket, RingEventOf, DispatchCtp, Tell, InRange;
    if all != [] {
      var front, last := all[..|all| - 1], all[|all| - 1];
      HubHearsAll(front);
      if last.OfSession? {
        var before, after := Exec(StepsOf(front)), Exec(StepsOf(all));
        ExecAppend(StepsOf(front), last.step);
        StepReports(before, last.step);
        ReportsOfTold(EventsOf(front), after.trace[|before.trace|..]);
      } else {
        assert EventsOf(all)[..|EventsOf(all)| - 1] == EventsOf(front);
      }
    }
  }

  /** For every interleaving inside one TCP lifetime that begins with nothing owed, and options changing at any time:
      every capture was promised by the ring of the very call whose end started it, points at that call's origin, and
      is the only one of its kind for it; and what is owed is owed for rings that are open. */
  lemma CapturesFollowTheirRing(h: Hub, all: seq<Happening>)
    requires NothingStarted(h) && h.owed == map[]
    ensures var end, trace := After(h, EventsOf(all)), Exec(StepsOf(all)).trace;
            var open := OpenCalls(trace).value;
            && (forall j :: 0 <= j < |end.started| ==>
                  var c := end.started[j];
                  c.call in end.promised && PointsAtItsRing(trace, c))
            && OncePerKind(end.started)
            && (forall id :: id in end.owed ==>
                  id in open && open[id].call in end.promised && end.owed[id] == open[id].event.origin)
  {
    HubHearsAll(all);
    RingsAreFresh(StepsOf(all));
    AlwaysSound(h, EventsOf(all));
    SoundMeans(After(h, EventsOf(all)), Exec(StepsOf(all)).trace);
  }

  lemma SoundMeans(end: Hub, trace: seq<Report>)
    requires OpenCalls(trace).Some? && Sound(end, trace, map[])
    ensures forall j :: 0 <= j < |end.started| ==>
              end.started[j].call in end.promised && PointsAtItsRing(trace, end.started[j])
    ensures OncePerKind(end.started)
    ensures var open := OpenCalls(trace).value;
            forall id :: id in end.owed ==>
              id in open && open[id].call in end.promised && end.owed[id] == open[id].event.origin
  {
    forall j | 0 <= j < |end.started|
      ensures end.started[j].call in end.promised && PointsAtItsRing(trace, end.started[j])
    {
      var c := end.started[j];
      assert Rightful(end, trace, map[], c);
      var n :| 0 <= n < |trace| && trace[n].End? && trace[n].call == c.call && Earned(end, trace, map[], c, n);
    }
    var open := OpenCalls(trace).value;
    forall id | id in end.owed
      ensures id in open && open[id].call in end.promised && end.owed[id] == open[id].event.origin
    {
      assert OwedOn(end, trace, open, map[], id);
    }
  }

  /** The end of the call was reported, with the capture's target for its origin. */
  ghost predicate PointsAtItsRing(trace: seq<Report>, c: Capture) {
    exists n :: 0 <= n < |trace| && trace[n].End? && trace[n].call == c.call && trace[n].event.origin == c.target
  }

  /** A call from an entrance, by its tag ("PP", as against a floor call's "FF"), or by the address book if the tag is
      neither. */
  predicate FromEntrance(book: Option<set<string>>, e: RingEvent) {
    e.tag != [0x46, 0x46] && (e.tag == [0x50, 0x50] || (book.Some? && e.origin in book.value))
  }

  /** What the user wants of a ring: pictures, clips. */
  datatype Wanted = Wanted(pictures: bool, clips: bool)

  /** By the last change there was, if any. */
  function WantedAfter(h: Hub, events: seq<Event>): Wanted {
    if events == [] then Wanted(h.snapshotOnRing, h.recordOnRing)
    else
      match events[|events| - 1]
      case Options(snapshot, record) => Wanted(snapshot, record)
      case Told(_) => WantedAfter(h, events[..|events| - 1])
  }

  /** At `k` this call rings, from an entrance, and pictures or clips are wanted at that moment. */
  predicate RingOwes(h: Hub, events: seq<Event>, k: nat, call: nat) {
    && k < |events| && events[k].Told? && events[k].report.Ring? && events[k].report.call == call
    && FromEntrance(h.book, events[k].report.event)
    && (WantedAfter(h, events[..k]).pictures || WantedAfter(h, events[..k]).clips)
  }

  lemma {:induction false} OptionsMean(h: Hub, events: seq<Event>)
    ensures var end := After(h, events);
            end.book == h.book && Wanted(end.snapshotOnRing, end.recordOnRing) == WantedAfter(h, events)
  {
    if events != [] {
      OptionsMean(h, events[..|events| - 1]);
    }
  }

  lemma {:induction false} PromisedMeans(h: Hub, events: seq<Event>, call: nat)
    requires NothingStarted(h)
    ensures call in After(h, events).promised <==> exists k: nat :: RingOwes(h, events, k, call)
  {
    if events != [] {
      var n := |events| - 1;
      var front := events[..n];
      PromisedMeans(h, front, call);
      OptionsMean(h, front);
      forall k: nat | k < n ensures RingOwes(h, events, k, call) <==> RingOwes(h, front, k, call) {
        assert events[..k] == front[..k];
      }
      assert RingOwes(h, events, n, call) || !RingOwes(h, events, n, call);
    }
  }

  /** For every list of events in which a call rings, and whatever the user changed in between: it is owed a capture
      exactly when that ring was an entrance's, and pictures or clips were wanted at that moment; a floor call never. */
  lemma OwedExactlyWhen(h: Hub, events: seq<Event>, k: nat, call: nat, e: RingEvent)
    requires NothingStarted(h)
    requires k < |events| && events[k] == Told(Ring(call, e))
    requires forall m :: 0 <= m < |events| && m != k && events[m].Told? && events[m].report.Ring? ==>
               events[m].report.call != call
    ensures call in After(h, events).promised
            <==> && e.tag != [0x46, 0x46] && (e.tag == [0x50, 0x50] || (h.book.Some? && e.origin in h.book.value))
                 && var wanted := WantedAfter(h, events[..k]); wanted.pictures || wanted.clips
  {
    PromisedMeans(h, events, call);
    assert forall m: nat :: RingOwes(h, events, m, call) ==> m == k;
    assert RingOwes(h, events, k, call) || !RingOwes(h, events, k, call);
  }

  /** The end of a call starts something only if that call's own ring owed it, or an entry from an earlier TCP lifetime
      was left on its id and it is the first call on it to end. Then it starts a picture exactly if pictures are wanted
      by now, and a clip exactly if clips are, of where that ring came from, or else of what was left over. */
  lemma EndFiresExactlyWhen(h: Hub, events: seq<Event>, call: nat, e: RingEvent, cause: Option<byte>)
    requires NothingStarted(h)
    requires var trace := ReportsOf(events) + [End(call, e, cause)]; OpenCalls(trace).Some? && RingsFresh(trace)
    ensures var before, after := After(h, events).started, After(h, events + [Told(End(call, e, cause))]).started;
            var owed := exists k: nat :: RingOwes(h, events, k, call);
            var left := e.connection in h.owed && !EndedOn(ReportsOf(events), e.connection);
            var wanted := WantedAfter(h, events);
            after == before + (if !owed && !left then []
                               else
                                 var target := if owed then e.origin else h.owed[e.connection];
                                 (if wanted.pictures then [Capture(Snapshot, target, call)] else [])
                                 + (if wanted.clips then [Capture(Clip, target, call)] else []))
  {
    var end, trace := After(h, events), ReportsOf(events);
    assert (events + [Told(End(call, e, cause))])[..|events|] == events;
    OpenCallsAppend(trace, End(call, e, cause));
    RingsFreshPrefix(trace, End(call, e, cause));
    AlwaysSound(h, events);
    OptionsMean(h, events);
    PromisedMeans(h, events, call);
    assert OwedOn(end, trace, OpenCalls(trace).value, h.owed, e.connection);
  }

  // ---------------------------------------------------------------- an entry that outlives its connection

  lemma HeardAppend(h: Hub, all: seq<Happening>, last: Happening)
    ensures StepsOf(all + [last]) == if last.OfSession? then StepsOf(all) + [last.step] else StepsOf(all)
    ensures last.OfUser? ==>
              After(h, EventsOf(all + [last])) == React(After(h, EventsOf(all)), Options(last.snapshot, last.record))
    ensures last.OfSession? && Exec(StepsOf(all) + [last.step]).trace == Exec(StepsOf(all)).trace ==>
              After(h, EventsOf(all + [last])) == After(h, EventsOf(all))
    ensures forall r :: last.OfSession? && Exec(StepsOf(all) + [last.step]).trace == Exec(StepsOf(all)).trace + [r] ==>
                          After(h, EventsOf(all + [last])) == React(After(h, EventsOf(all)), Told(r))
  {
    hide Exec, React;
    assert (all + [last])[..|all|] == all;
    var events := EventsOf(all);
    if last.OfUser? {
      assert (events + [Options(last.snapshot, last.record)])[..|events|] == events;
    } else {
      var before, after := Exec(StepsOf(all)).trace, Exec(StepsOf(all) + [last.step]).trace;
      if after == before {
        assert after[|before|..] == [] && events + [] == events;
      } else if |after| == |before| + 1 {
        assert Tell(after[|before|..]) == [Told(after[|before|])] by {
          assert after[|before|..][..0] == [];
        }
        assert (events + [Told(after[|before|])])[..|events|] == events;
      }
    }
  }

  /** An inbound call that rings and then either loses its reader or is refused its acknowledgement. */
  function CallOf(payload: bytes, o: SendOutcome): seq<Happening> {
    [OfSession(Receive(payload, "", 0)), OfSession(ReaderResumes(o))]
  }

  lemma CallHeard(h: Hub, before: seq<Happening>, payload: bytes, p: CtpPacket, o: SendOutcome)
    requires ParseCtpPacket(payload) == Ok(p) && IsInvite(p) && StepsOf(before) == []
    ensures var rung := OnRing(After(h, EventsOf(before)), 0, RingEventOf(p));
            && (o.Cancelled? ==> After(h, EventsOf(before + CallOf(payload, o))) == rung)
            && (o.Refused? ==> After(h, EventsOf(before + CallOf(payload, o))) == OnCallEnd(rung, 0, RingEventOf(p)))
  {
    hide ParseCtpPacket, RingEventOf, IsInvite, Exec, EventsOf, After, OnCallEnd, OnRing;
    var receive, resume := Receive(payload, "", 0), ReaderResumes(o);
    var rung, all := before + [OfSession(receive)], before + CallOf(payload, o);
    assert all == rung + [OfSession(resume)];
    CallReported(payload, p, o);
    assert [] + [receive] == [receive];
    HeardAppend(h, before, OfSession(receive));
    HeardAppend(h, rung, OfSession(resume));
  }

  lemma CallReported(payload: bytes, p: CtpPacket, o: SendOutcome)
    requires ParseCtpPacket(payload) == Ok(p) && IsInvite(p)
    ensures var receive, ring := Receive(payload, "", 0), Ring(0, RingEventOf(p));
            var rung, done := Exec([receive]).trace, Exec([receive] + [ReaderResumes(o)]).trace;
            && rung == Exec([]).trace + [ring]
            && (o.Cancelled? ==> done == rung)
            && (o.Refused? ==> done == rung + [End(0, RingEventOf(p), None)])
  {
    hide ParseCtpPacket, RingEventOf, IsInvite, DispatchCtp;
    var receive := Receive(payload, "", 0);
    InviteJustRings(payload, p, "", 0);
    ExecAppend([], receive);
    assert [] + [receive] == [receive];
    ExecAppend([receive], ReaderResumes(o));
  }

  /** What the hub takes over into the next TCP lifetime, whose calls are numbered anew. */
  function NextLifetime(h: Hub): Hub {
    h.(started := [], promised := {})
  }

  /** An entry whose end was lost with its TCP connection is honoured by the wrong call. Whatever entrance call the
      reader is cancelled over while acknowledging it, a floor call on the same id in the next lifetime, which promised
      nothing, starts a picture of the entrance that rang in the one before. */
  lemma StaleEntryMisfires(h: Hub, first: bytes, entrance: CtpPacket, second: bytes, floor: CtpPacket)
    requires NothingStarted(h) && h.owed == map[] && EntranceThenFloor(first, entrance, second, floor)
    ensures var before := After(h, EventsOf([OfUser(true, false)] + CallOf(first, Cancelled)));
            var after := After(NextLifetime(before), EventsOf(CallOf(second, Refused)));
            && before.owed == map[entrance.connection := RingEventOf(entrance).origin]
            && after.started == [Capture(Snapshot, RingEventOf(entrance).origin, 0)] && after.promised == {}
  {
    hide ParseCtpPacket, RingEventOf, IsInvite, CallOf, After, Exec;
    HeardAppend(h, [], OfUser(true, false));
    assert [] + [OfUser(true, false)] == [OfUser(true, false)];
    NothingYet(h);
    CallHeard(h, [OfUser(true, false)], first, entrance, Cancelled);
    var before := After(h, EventsOf([OfUser(true, false)] + CallOf(first, Cancelled)));
    NothingYet(NextLifetime(before));
    CallHeard(NextLifetime(before), [], second, floor, Refused);
    assert [] + CallOf(second, Refused) == CallOf(second, Refused);
    SamePlace(entrance, floor);
  }

  lemma NothingYet(h: Hub)
    ensures After(h, EventsOf([])) == h && StepsOf([]) == [] && StepsOf([OfUser(true, false)]) == []
  {
  }

  /** A ring is about the packet's connection. */
  lemma SamePlace(entrance: CtpPacket, floor: CtpPacket)
    requires entrance.connection == floor.connection
    ensures RingEventOf(entrance).connection == RingEventOf(floor).connection == entrance.connection
  {
  }

  /** Payloads of an entrance call and of a floor call, on one id. */
  predicate EntranceThenFloor(first: bytes, entrance: CtpPacket, second: bytes, floor: CtpPacket) {
    && ParseCtpPacket(first) == Ok(entrance) && IsInvite(entrance) && RingEventOf(entrance).tag == TAG_ENTRANCE
    && ParseCtpPacket(second) == Ok(floor) && IsInvite(floor) && RingEventOf(floor).tag == TAG_FLOOR_CALL
    && entrance.connection == floor.connection
  }

  /** A call on connection 0x8001, with this tag. */
  function AnInvite(tag: bytes): CtpPacket {
    CtpPacket(FLAG_SYN, [0x80, 0x01], 0, 0, U16Be(OP_INVITE) + Zeros(36) + tag, "00000100", "00000000")
  }

  lemma InviteReads(tag: bytes)
    requires |tag| == 2
    ensures var p := AnInvite(tag); IsInvite(p) && RingEventOf(p).tag == tag && Encodable(p)
  {
    hide DecodeLogaddr, EncodeLogaddr;
    var p := AnInvite(tag);
    assert |p.body| == 40 && p.body[0] == 0 && p.body[1] == 1 && p.body[38..40] == tag;
    assert ParseInvite(p.body).Ok?;
    assert "00000100" == ['0', '0', '0', '0', '0', '1', '0', '0'];
  }

  lemma SuchInvitesExist()
    ensures var entrance, floor := AnInvite(TAG_ENTRANCE), AnInvite(TAG_FLOOR_CALL);
            && Build(entrance).Ok? && Build(floor).Ok?
            && EntranceThenFloor(Build(entrance).value, entrance, Build(floor).value, floor)
  {
    var entrance, floor := AnInvite(TAG_ENTRANCE), AnInvite(TAG_FLOOR_CALL);
    InviteReads(TAG_ENTRANCE);
    InviteReads(TAG_FLOOR_CALL);
    assert entrance.connection == floor.connection;
    ParseUndoesBuild(entrance);
    ParseUndoesBuild(floor);
    hide AnInvite, Encodable, IsInvite, RingEventOf, Build, ParseCtpPacket;
  }
}
