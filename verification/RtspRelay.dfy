/** The relay's objects (viper/rtsp.py): the episode, which its waiters keep hold of, and the relay that makes one at a
    time. A method is the code between two awaits of `_serve`, `_wait_idle`, `_pump` or a client's handler. */
module RtspRelay {
  import opened Bytes
  import Relay

  class Episode {
    ghost const number: nat  // how many episodes were made before this one
    const target: string
    var pc: Relay.Pc         // where its task is suspended
    var call: Option<nat>
    var ready: bool
    var failed: bool
    ghost var dialled: bool
    ghost var started: bool
    ghost var cancelling: bool

    ghost function View(): Relay.Episode
      reads this
    {
      Relay.Episode(target, pc, call, ready, failed, dialled, started, cancelling)
    }

    constructor (ghost number: nat, target: string)
      ensures this.number == number
      ensures View() == Relay.Episode(target, Relay.NotStarted, None, false, false, false, false, false)
    {
      this.number, this.target := number, target;
      pc, call, ready, failed := Relay.NotStarted, None, false, false;
      dialled, started, cancelling := false, false, false;
    }
  }

  datatype Joined = Busy | In(episode: Episode)

  class RtspRelay {
    var clients: map<nat, bool>
    var episode: Episode?
    var generation: nat
    var idleSet: bool

    ghost var objects: seq<Episode>
    ghost var pumps: map<nat, bool>
    ghost var idles: map<nat, Relay.Idle>
    ghost var answered: nat
    ghost var now: real
    ghost var stopped: bool
    ghost var log: seq<Relay.Act>

    ghost predicate Knows(e: Episode)
      reads this`objects
    {
      e.number < |objects| && objects[e.number] == e
    }

    ghost predicate Valid()
      reads this`objects, this`episode
    {
      && (forall i :: 0 <= i < |objects| ==> objects[i].number == i)
      && (episode != null ==> Knows(episode))
    }

    ghost function Views(): (vs: seq<Relay.Episode>)
      reads this`objects, objects
      ensures |vs| == |objects|
      ensures forall i :: 0 <= i < |objects| ==> vs[i] == objects[i].View()
    {
      var os := objects;
      seq(|os|, i requires 0 <= i < |os| reads os => os[i].View())
    }

    ghost function View(): Relay.Relay
      reads this, objects
    {
      Relay.Relay(clients, Views(), if episode == null then None else Some(episode.number), generation, idleSet, pumps,
                  idles, answered, now, stopped, log)
    }

    /** Valid, and in a state that the relay's theorems speak of. */
    ghost predicate Sound()
      reads this, objects
    {
      Valid() && Relay.Inv(View())
    }

    /** Of such an object only the episode of `_episode` can still be running, and while a pump runs it moves the
        packets of the call which that episode relays. */
    lemma OnlyTheCurrentRuns(e: Episode, call: nat)
      requires Sound() && Knows(e)
      ensures !e.pc.Finished? ==> episode == e
      ensures call in pumps ==> episode != null && episode.pc.Relaying? && episode.call == Some(call)
    {
      assert View().episodes[e.number] == e.View();
      assert episode != null ==> View().episodes[episode.number] == episode.View();
    }

    /** All that changed of the episodes is `e`. */
    twostate lemma OnlyThisChanged(e: Episode)
      requires old(Valid()) && objects == old(objects) && old(Knows(e))
      requires forall o :: o in objects && o != e ==> unchanged(o)
      ensures Views() == old(Views())[e.number := e.View()]
    {
      forall i | 0 <= i < |objects| && i != e.number ensures objects[i].View() == old(objects[i].View()) {
        assert objects[i] in objects && objects[i].number == i;
      }
    }

    twostate lemma OneAdded(new e: Episode)
      requires objects == old(objects) + [e]
      requires forall o :: o in old(objects) ==> unchanged(o)
      ensures Views() == old(Views()) + [e.View()]
    {
      forall i | 0 <= i < |old(objects)| ensures objects[i].View() == old(objects[i].View()) {
        assert objects[i] in old(objects);
      }
    }

    constructor ()
      ensures Valid() && View() == Relay.Fresh && objects == []
    {
      clients, episode, generation, idleSet := map[], null, 0, false;
      objects, pumps, idles, answered, now, stopped, log := [], map[], map[], 0, 0.0, false, [];
    }

    // -------------------------------------------------------------- requests

    method Live() returns (e: Episode?)
      requires Valid()
      ensures (e == null <==> Relay.Live(View()).None?) && (e != null ==> e == episode && Knows(e))
    {
      e := if episode == null || episode.pc.Finished? then null else episode;
    }

    /** `_ensure_call` up to its wait: the episode to wait for, unless one towards another entrance is live. */
    method EnsureCall(target: string) returns (r: Joined)
      requires Valid()
      modifies this`episode, this`objects
      ensures Valid() && old(objects) <= objects && (forall i :: |old(objects)| <= i < |objects| ==> fresh(objects[i]))
      ensures r.Busy? <==> old(Relay.Live(View()).Some? && episode.target != target)
      ensures r.In? ==> r.episode == episode && r.episode.target == target && !r.episode.pc.Finished?
      ensures View() == Relay.Request(old(View()), target)
    {
      var e := Live();
      if e != null && e.target != target {
        return Busy;
      }
      if e == null {
        e := new Episode(|objects|, target);
        NewEpisode(e);
      }
      r := In(e);
    }

    method NewEpisode(e: Episode)
      requires Valid() && e.number == |objects| && e !in objects
      modifies this`episode, this`objects
      ensures Valid() && objects == old(objects) + [e] && episode == e && Views() == old(Views()) + [e.View()]
    {
      episode := e;
      objects := objects + [e];
      OneAdded(e);
    }

    // -------------------------------------------------------------- the owner of an episode

    /** The first step of `_serve`, and every redial. */
    method BeginDial(e: Episode)
      requires Valid() && Knows(e)
      modifies this`log, e
      ensures Valid() && View() == Relay.StartDial(old(View()), e.number)
      ensures log == old(log) + [Relay.Dial(e.target)] && e.pc.Dialling?
    {
      e.pc := Relay.Dialling;
      e.started := true;
      log := log + [Relay.Dial(e.target)];
      OnlyThisChanged(e);
    }

    /** The factory returned a call. */
    method CallAnswered(e: Episode, call: nat)
      requires Valid() && Knows(e) && e.pc.Dialling? && call == answered
      modifies this`generation, this`pumps, this`idles, this`answered, this`log, e
      ensures Valid() && View() == Relay.Answers(old(View()), e.number)
    {
      e.dialled := true;
      e.ready := true;
      e.call := Some(call);
      e.pc := Relay.Relaying;
      OnlyThisChanged(e);
      hide Relay.CountCall;
      CountCall(call);
    }

    method CountCall(ghost call: nat)
      requires Valid() && call == answered
      modifies this`generation, this`pumps, this`idles, this`answered, this`log
      ensures Valid() && View() == Relay.CountCall(old(View()))
    {
      generation := generation + 1;
      pumps, idles := pumps[call := false], idles[call := Relay.IdleNotStarted];
      log := log + [Relay.Answer(answered, generation)];
      answered := answered + 1;
    }

    /** The factory raised, or was cancelled. */
    method DialFailed(e: Episode, first: bool, cancelled: bool)
      requires Valid() && Knows(e) && e.pc.Dialling? && (cancelled || first == !e.dialled)
      modifies this`episode, this`log, e
      ensures Valid() && View() == Relay.DialFails(old(View()), e.number, cancelled)
    {
      e.failed := !cancelled && first;
      e.dialled := true;
      log := log + [Relay.DialFailed];
      OnlyThisChanged(e);
      hide Relay.Finish;
      Finish(e);
    }

    /** The end of the outer `finally`. */
    method Finish(e: Episode)
      requires Valid() && Knows(e)
      modifies this`episode, e
      ensures Valid() && View() == Relay.Finish(old(View()), e.number)
      ensures episode == (if old(episode) == e then null else old(episode))
      ensures e.pc.Finished? && e.ready && e.call == None
    {
      e.ready := true;
      e.call := None;
      if episode == e {
        episode := null;
      }
      e.pc := Relay.Finished;
      OnlyThisChanged(e);
    }

    /** The wait for the pump and the idle watch is over: both are cancelled. */
    method StopRelaying(e: Episode, left: bool, cancelled: bool)
      requires Valid() && Knows(e)
      modifies this`pumps, this`idles, e
      ensures Valid() && View() == Relay.StopRelaying(old(View()), e.number, left, cancelled)
    {
      pumps, idles := pumps - Relay.CallOf(View(), e.number), idles - Relay.CallOf(View(), e.number);
      e.pc := Relay.EndingPump(left, cancelled);
      OnlyThisChanged(e);
    }

    /** The close after a call that ended, up to its await. */
    method BeginClose(e: Episode, left: bool)
      requires Valid() && Knows(e)
      modifies this`log, e
      ensures Valid() && View() == Relay.BeginClose(old(View()), e.number, left)
    {
      log := log + Relay.HangUpOf(View(), e.number);
      e.call := None;
      e.pc := Relay.Closing(left);
      OnlyThisChanged(e);
    }

    /** The close in the outer `finally`, up to its await. */
    method BeginFinalClose(e: Episode)
      requires Valid() && Knows(e)
      modifies this`log, e
      ensures Valid() && View() == Relay.BeginFinalClose(old(View()), e.number)
    {
      log := log + Relay.HangUpOf(View(), e.number);
      e.ready := true;
      e.pc := Relay.FinalClosing;
      OnlyThisChanged(e);
    }

    method Viewers() returns (n: nat)
      ensures n == |Relay.Playing(clients)| && (n == 0 <==> forall c :: c in clients ==> !clients[c])
    {
      n := |Relay.Playing(clients)|;
      assert forall c :: c in Relay.Playing(clients) <==> c in clients && clients[c];
    }

    /** The close of a call came back, well or not: done, or a redial for those still watching. */
    method CallClosed(e: Episode, left: bool)
      requires Valid() && Knows(e)
      modifies this`episode, this`log, e
      ensures Valid() && View() == Relay.CloseDone(old(View()), e.number, left)
      ensures if !left && exists c :: c in clients && clients[c] then
                log == old(log) + [Relay.Dial(e.target)] && e.pc.Dialling?
              else log == old(log) && e.pc.Finished?
    {
      hide Relay.Finish, Relay.StartDial, Relay.Playing;
      var viewers := Viewers();
      if left || viewers == 0 {
        Finish(e);
      } else {
        BeginDial(e);
      }
    }

    /** The task of an episode is cancelled, wherever it is suspended. */
    method Cancelled(e: Episode)
      requires Valid() && Knows(e)
      modifies this, e
      ensures Valid() && View() == Relay.Cancel(old(View()), e.number)
    {
      hide Relay.CutShort, Relay.Ask;
      if !e.pc.Finished? {
        Asked(e);
        CutShort(e);
      }
    }

    method Asked(e: Episode)
      requires Valid() && Knows(e)
      modifies e`cancelling
      ensures Valid() && e.pc == old(e.pc) && View() == Relay.Ask(old(View()), e.number)
    {
      e.cancelling := true;
      OnlyThisChanged(e);
    }

    method CutShort(e: Episode)
      requires Valid() && Knows(e)
      modifies this, e
      ensures Valid() && View() == Relay.CutShort(old(View()), e.number)
    {
      hide Relay.Finish, Relay.StopRelaying, Relay.BeginFinalClose, Relay.DialFails;
      match e.pc {
        case NotStarted => GiveUp(e);
        case Dialling => DialFailed(e, false, true);
        case Relaying => StopRelaying(e, false, true);
        case EndingPump(_, _) => BeginFinalClose(e);
        case EndingIdle(_, _) => BeginFinalClose(e);
        case Closing(_) => Finish(e);
        case FinalClosing => GiveUp(e);
        case Finished =>
      }
    }

    /** A task that ends there and then. */
    method GiveUp(e: Episode)
      requires Valid() && Knows(e)
      modifies e`pc
      ensures Valid() && View() == Relay.With(old(View()), e.number, old(e.View()).(pc := Relay.Finished))
    {
      e.pc := Relay.Finished;
      OnlyThisChanged(e);
    }

    // -------------------------------------------------------------- viewers

    method Drop(client: nat)
      modifies this`clients, this`idleSet
      ensures View() == Relay.Drop(old(View()), client)
    {
      clients := clients - {client};
      var viewers := Viewers();
      if viewers == 0 {
        idleSet := true;
      }
    }

    /** One packet to every client that plays, dropping those that fail. */
    method FanOut(call: nat, order: seq<nat>, failing: set<nat>)
      requires Relay.Enumerates(order, clients)
      modifies this`clients, this`idleSet, this`log
      ensures View() == Relay.FanOut(old(View()), call, order, failing)
    {
      var dead := Write(call, order, failing);
      var left := dead;
      while left != []
        invariant Relay.DropAll(View(), left)
                  == Relay.DropAll(old(View()).(log := log), Relay.DeadOf(order, old(clients), failing))
        invariant log == old(log) + Relay.SentTo(order, old(clients), failing, call, generation)
        decreases |left|
      {
        Drop(left[0]);
        left := left[1..];
      }
    }

    method Write(ghost call: nat, order: seq<nat>, failing: set<nat>) returns (dead: seq<nat>)
      modifies this`log
      ensures dead == Relay.DeadOf(order, clients, failing)
      ensures log == old(log) + Relay.SentTo(order, clients, failing, call, generation)
    {
      dead := [];
      var left := order;
      while left != []
        invariant dead + Relay.DeadOf(left, clients, failing) == Relay.DeadOf(order, clients, failing)
        invariant log + Relay.SentTo(left, clients, failing, call, generation)
                  == old(log) + Relay.SentTo(order, clients, failing, call, generation)
        decreases |left|
      {
        var client, rest := left[0], left[1..];
        ghost var deadRest, sentRest :=
          Relay.DeadOf(rest, clients, failing), Relay.SentTo(rest, clients, failing, call, generation);
        Assoc(dead, [client], deadRest);
        Assoc(log, [Relay.Sent(client, call, generation)], sentRest);
        if client in clients && clients[client] {
          if client in failing {
            dead := dead + [client];
          } else {
            log := log + [Relay.Sent(client, call, generation)];
          }
        }
        left := rest;
      }
    }

    static lemma Assoc<T>(a: seq<T>, b: seq<T>, c: seq<T>)
      ensures a + (b + c) == (a + b) + c && [] + c == c
    {
    }

    /** A round of `_wait_idle` up to its await. */
    method IdleRound(ghost call: nat)
      modifies this`idleSet, this`idles
      ensures View() == Relay.IdleRound(old(View()), call)
    {
      idleSet := false;
      idles := idles[call := if clients != map[] then Relay.Blocked else Relay.Sleeping(now)];
    }

    /** The grace is over: the watch returns if nobody plays, and else starts another round. */
    method GraceOver(ghost call: nat) returns (done: bool)
      modifies this`idleSet, this`idles
      ensures done == (Relay.Viewers(old(View())) == 0)
      ensures View() == if done then old(View()).(idles := old(idles)[call := Relay.Returned])
                        else Relay.IdleRound(old(View()), call)
    {
      var viewers := Viewers();
      done := viewers == 0;
      if done {
        idles := idles[call := Relay.Returned];
      } else {
        IdleRound(call);
      }
    }

    // -------------------------------------------------------------- resumptions

    /** What an owner finds when it resumes: the number of the call its dial returned, whether it had not dialled
        before, and whether its idle watch is done. */
    ghost predicate Finds(e: Episode, step: Relay.Step, call: nat, first: bool, left: bool)
      reads this, e
    {
      && (step.DialReturns? ==> call == answered)
      && (step.DialRaises? ==> first == !e.dialled)
      && (step.WaitReturns? ==> left == (e.call.Some? && e.call.value in idles && idles[e.call.value].Returned?))
    }

    /** The owner of an episode resumes: a step of the relay's machine, after which the object is still sound. */
    method OwnerResumes(e: Episode, step: Relay.Step, call: nat, first: bool, left: bool)
      requires Sound() && Knows(e) && Relay.OwnerStep(step) && step.episode == e.number
      requires Relay.Enabled(View(), step) && Finds(e, step, call, first, left)
      modifies this, e
      ensures Sound() && View() == Relay.Apply(old(View()), step)
    {
      Relay.StepKeeps(View(), step);
      assert View().episodes[e.number] == e.View();
      hide Relay.Inv;
      Resume(e, step, call, first, left);
    }

    method Resume(e: Episode, step: Relay.Step, call: nat, first: bool, left: bool)
      requires Valid() && Knows(e) && Relay.OwnerStep(step) && step.episode == e.number
      requires Finds(e, step, call, first, left)
      requires Relay.Enabled(View(), step) && View().episodes[e.number] == e.View()
      modifies this, e
      ensures Valid() && View() == Relay.Apply(old(View()), step)
    {
      hide Relay.StartDial, Relay.Answers, Relay.DialFails, Relay.StopRelaying, Relay.BeginClose, Relay.BeginFinalClose,
           Relay.CloseDone, Relay.Finish, Relay.Cancel, Relay.Ask;
      match step {
        case Starts(_) => BeginDial(e);
        case DialReturns(_) => CallAnswered(e, call);
        case DialRaises(_) => DialFailed(e, first, false);
        case WaitReturns(_) => StopRelaying(e, left, false);
        case PumpEnded(_) => PumpGone(e);
        case IdleEnded(_) =>
          if e.pc.cancelled {
            BeginFinalClose(e);
          } else {
            BeginClose(e, e.pc.left);
          }
        case Closed(_) => CallClosed(e, e.pc.left);
        case FinallyClosed(_) => Finish(e);
        case IsCancelled(_) => Cancelled(e);
        case IsAsked(_) => Asked(e);
      }
    }

    method PumpGone(e: Episode)
      requires Valid() && Knows(e) && e.pc.EndingPump?
      modifies e`pc
      ensures Valid()
      ensures View() == Relay.With(old(View()), e.number,
                                   old(e.View()).(pc := Relay.EndingIdle(old(e.pc).left, old(e.pc).cancelled)))
    {
      e.pc := Relay.EndingIdle(e.pc.left, e.pc.cancelled);
      OnlyThisChanged(e);
    }

    /** A packet or a client that goes: likewise. */
    method Happens(step: Relay.Step)
      requires Sound() && Relay.Enabled(View(), step) && (step.Frame? || step.Leaves?)
      modifies this`clients, this`idleSet, this`log
      ensures Sound() && View() == Relay.Apply(old(View()), step)
    {
      hide Relay.Inv, Relay.FanOut, Relay.Drop;
      Relay.StepKeeps(View(), step);
      match step {
        case Frame(call, order, failing) => FanOut(call, order, failing);
        case Leaves(client) => Drop(client);
      }
    }

    /** The idle watch starts, or its grace is over: likewise. */
    method WatchResumes(step: Relay.Step)
      requires Sound() && Relay.Enabled(View(), step) && (step.IdleStarts? || step.GraceOver?)
      modifies this`idleSet, this`idles
      ensures Sound() && View() == Relay.Apply(old(View()), step)
    {
      hide Relay.Inv, Relay.IdleRound, Relay.Viewers;
      Relay.StepKeeps(View(), step);
      match step {
        case IdleStarts(call) => IdleRound(call);
        case GraceOver(call) =>
          var _ := GraceOver(call);
      }
    }

    /** And a request. */
    method Request(target: string) returns (r: Joined)
      requires Sound()
      modifies this`episode, this`objects
      ensures Sound() && View() == Relay.Apply(old(View()), Relay.Asks(target))
      ensures r.In? ==> r.episode == episode
    {
      hide Relay.Inv, Relay.Request;
      Relay.StepKeeps(View(), Relay.Asks(target));
      r := EnsureCall(target);
    }
  }
}
