/** What happened to the connection (hub.py), and what the backoff owes to it. */
module LinkHistory {
  import opened Bytes

  const RECONNECT_BACKOFF: seq<real> := [5.0, 15.0, 30.0, 60.0, 120.0, 300.0, 600.0]
  const STABLE_CONNECTION := 120.0
  const REGISTRATION_TTL := 3600.0
  const CONNECTION_MAX_AGE := REGISTRATION_TTL - 600.0

  /** A connect came through; the link was lowered, because the reader lost it, because the watchdog gave it up, or
      because a connection too old at `began` was closed to be replaced; it was found dead right after its handshake;
      the backoff was reset because it had lasted; an attempt was owed, after a delay from then or at once; and it was
      begun. */
  datatype Mark =
    | CameUp(at: real)
    | Lost(at: real)
    | Dropped(at: real)
    | Recycled(at: real, began: real)
    | Died
    | Lasted(lifetime: real)
    | Delay(seconds: real, at: real)
    | AtOnce(at: real)
    | Attempt(at: real)

  function LoweredAt(m: Mark): Option<real> {
    match m
    case Lost(at) => Some(at)
    case Dropped(at) => Some(at)
    case Recycled(at, _) => Some(at)
    case _ => None
  }

  function Backoff(attempt: nat): real {
    RECONNECT_BACKOFF[if attempt < |RECONNECT_BACKOFF| then attempt else |RECONNECT_BACKOFF| - 1]
  }

  /** Since when the link has been up, by the last connect that came through. */
  function Since(history: seq<Mark>): Option<real> {
    if history == [] then None
    else
      var last := history[|history| - 1];
      if last.CameUp? then Some(last.at)
      else if LoweredAt(last).Some? || last.Died? then None
      else Since(history[..|history| - 1])
  }

  /** Whether a replacement is under way: a connection was closed for its age, nothing was lost or dropped since, and no
      attempt was begun for it yet. */
  predicate Replacing(history: seq<Mark>) {
    history != []
    && var last := history[|history| - 1];
       (last.Recycled? || (LoweredAt(last).None? && !last.AtOnce? && Replacing(history[..|history| - 1])))
  }

  /** How many delays were served since the last reset. */
  function Climbs(history: seq<Mark>): nat {
    if history == [] then 0
    else
      var last, front := history[|history| - 1], history[..|history| - 1];
      if last.AtOnce? || last.Lasted? then 0 else Climbs(front) + if last.Delay? then 1 else 0
  }

  /** How long the connection had been up that was lowered at `p`. */
  function LifetimeAt(history: seq<Mark>, p: nat): Option<real>
    requires p < |history|
  {
    if LoweredAt(history[p]).Some? && Since(history[..p]).Some? then
      Some(LoweredAt(history[p]).value - Since(history[..p]).value)
    else None
  }

  predicate LongAt(history: seq<Mark>, p: nat)
    requires p < |history|
  {
    LifetimeAt(history, p).Some? && LifetimeAt(history, p).value >= STABLE_CONNECTION
  }

  predicate MarkOk(history: seq<Mark>, p: nat)
    requires p < |history|
  {
    && (LongAt(history, p) ==> p + 1 < |history| && history[p + 1].Lasted?)
    && match history[p]
       case Delay(seconds, _) => seconds == Backoff(Climbs(history[..p])) && !Replacing(history[..p])
       case AtOnce(_) => Replacing(history[..p])
       case Lasted(lifetime) => p > 0 && LongAt(history, p - 1) && LifetimeAt(history, p - 1) == Some(lifetime)
       case Recycled(_, began) =>
         Since(history[..p]).Some? && began - Since(history[..p]).value >= CONNECTION_MAX_AGE
       case _ => true
  }

  ghost predicate HistoryOk(history: seq<Mark>) {
    forall p :: 0 <= p < |history| ==> MarkOk(history, p)
  }

  lemma Appended(history: seq<Mark>, m: Mark)
    ensures var more := history + [m];
            && Since(more) == (if m.CameUp? then Some(m.at)
                               else if LoweredAt(m).Some? || m.Died? then None else Since(history))
            && (Replacing(more) <==> m.Recycled? || (LoweredAt(m).None? && !m.AtOnce? && Replacing(history)))
            && Climbs(more) == (if m.AtOnce? || m.Lasted? then 0 else Climbs(history) + if m.Delay? then 1 else 0)
  {
    assert (history + [m])[..|history|] == history;
  }

  lemma MarkStays(history: seq<Mark>, m: Mark, p: nat)
    requires p < |history| && MarkOk(history, p)
    ensures MarkOk(history + [m], p)
  {
    var more := history + [m];
    assert more[..p] == history[..p];
    if p > 0 {
      assert more[..p - 1] == history[..p - 1];
    }
  }

  /** A mark that fits what came before, and is not the end of a long connection. */
  lemma OneMore(history: seq<Mark>, m: Mark)
    requires HistoryOk(history) && MarkOk(history + [m], |history|)
    ensures HistoryOk(history + [m])
  {
    forall p | 0 <= p < |history| + 1 ensures MarkOk(history + [m], p) {
      if p < |history| {
        MarkStays(history, m, p);
      }
    }
  }

  /** The end of a connection, and the reset that follows if it had lasted. */
  function Ended(history: seq<Mark>, why: Mark): seq<Mark> {
    history + [why]
    + (if Since(history).Some? && LoweredAt(why).Some?
          && LoweredAt(why).value - Since(history).value >= STABLE_CONNECTION
       then [Lasted(LoweredAt(why).value - Since(history).value)] else [])
  }

  /** What makes the end of a connection fit its history. */
  predicate Fits(history: seq<Mark>, why: Mark) {
    && LoweredAt(why).Some?
    && (why.Recycled? ==> Since(history).Some? && why.began - Since(history).value >= CONNECTION_MAX_AGE)
  }

  lemma EndedOk(history: seq<Mark>, why: Mark)
    requires HistoryOk(history) && Fits(history, why)
    ensures HistoryOk(Ended(history, why)) && Since(Ended(history, why)).None?
    ensures Replacing(Ended(history, why)) <==> why.Recycled?
    ensures Climbs(Ended(history, why)) == if |Ended(history, why)| == |history| + 1 then Climbs(history) else 0
  {
    var one, n := history + [why], |history|;
    assert one[..n] == history;
    Appended(history, why);
    if |Ended(history, why)| == n + 1 {
      assert Ended(history, why) == one;
      assert !LongAt(one, n);
      OneMore(history, why);
    } else {
      var lasted := Lasted(LoweredAt(why).value - Since(history).value);
      assert Ended(history, why) == one + [lasted];
      Appended(one, lasted);
      LongEnd(history, why, lasted);
    }
  }

  lemma LongEnd(history: seq<Mark>, why: Mark, lasted: Mark)
    requires HistoryOk(history) && Fits(history, why) && Since(history).Some?
    requires lasted == Lasted(LoweredAt(why).value - Since(history).value) && lasted.lifetime >= STABLE_CONNECTION
    ensures HistoryOk(history + [why] + [lasted])
  {
    var one, n := history + [why], |history|;
    var two := one + [lasted];
    assert two[..n] == history && two[..n + 1] == one && two[n] == why && two[n + 1] == lasted;
    assert LongAt(two, n) && LifetimeAt(two, n) == Some(lasted.lifetime);
    forall p | 0 <= p < n + 2 ensures MarkOk(two, p) {
      if p < n {
        MarkStays(history, why, p);
        MarkStays(one, lasted, p);
      }
    }
  }

  // ---------------------------------------------------------------- what the history means

  /** At `q` a connection was closed for its age, and nothing was lost, dropped or begun after that. */
  predicate LastRecycle(history: seq<Mark>, q: nat) {
    && q < |history| && history[q].Recycled?
    && forall r :: q < r < |history| ==> LoweredAt(history[r]).None? && !history[r].AtOnce?
  }

  lemma {:induction false} ReplacingMeans(history: seq<Mark>)
    ensures Replacing(history) <==> exists q :: LastRecycle(history, q)
  {
    if history != [] {
      var n := |history| - 1;
      ReplacingMeans(history[..n]);
      if history[n].Recycled? {
        assert LastRecycle(history, n);
      } else {
        forall q: nat ensures LastRecycle(history, q) <==>
                         LastRecycle(history[..n], q) && LoweredAt(history[n]).None? && !history[n].AtOnce? {
          assert q < n && LastRecycle(history, q) ==> history[..n][q] == history[q];
        }
      }
    }
  }

  /** At `q` a connect came through, at time `at`, and after that the link was neither lowered nor found dead. */
  predicate UpSince(history: seq<Mark>, q: nat, at: real) {
    && q < |history| && history[q] == CameUp(at)
    && forall r :: q < r < |history| ==>
         LoweredAt(history[r]).None? && !history[r].Died? && !history[r].CameUp?
  }

  lemma {:induction false} SinceMeans(history: seq<Mark>, at: real)
    ensures Since(history) == Some(at) <==> exists q :: UpSince(history, q, at)
  {
    if history != [] {
      var n := |history| - 1;
      var last := history[n];
      SinceMeans(history[..n], at);
      if last == CameUp(at) {
        assert UpSince(history, n, at);
      } else {
        forall q: nat ensures UpSince(history, q, at) <==>
                         UpSince(history[..n], q, at) && LoweredAt(last).None? && !last.Died? && !last.CameUp? {
          assert q < n && UpSince(history, q, at) ==> history[..n][q] == history[q];
        }
      }
    }
  }

  lemma BackoffGrows(a: nat, b: nat)
    requires a <= b
    ensures Backoff(a) <= Backoff(b)
  {
  }

  predicate Reset(m: Mark) {
    m.AtOnce? || m.Lasted?
  }

  lemma {:induction false} ClimbsGrow(history: seq<Mark>, p: nat, q: nat)
    requires p <= q <= |history| && forall i :: p <= i < q ==> !Reset(history[i])
    ensures Climbs(history[..p]) <= Climbs(history[..q])
    decreases q - p
  {
    if p < q {
      ClimbsGrow(history, p, q - 1);
      assert history[..q][..q - 1] == history[..q - 1];
    }
  }

  /** Between resets the delays do not shrink. */
  lemma DelaysGrow(history: seq<Mark>, p: nat, q: nat)
    requires HistoryOk(history) && p <= q < |history| && history[p].Delay? && history[q].Delay?
    requires forall i :: p < i < q ==> !Reset(history[i])
    ensures history[p].seconds <= history[q].seconds
  {
    assert MarkOk(history, p) && MarkOk(history, q);
    ClimbsGrow(history, p, q);
    BackoffGrows(Climbs(history[..p]), Climbs(history[..q]));
  }
}
