/**
 The gateway process: the handlers the event loop calls, and the pump they share.
 */
module DispatchPump {
  import opened Shared
  import opened PumpState

  // ---- the steps, with their guarantees under guard ----

  ghost predicate Sound(c: Config, w: World) { forall n: nat {:trigger Look(n)} :: Look(n) ==> Inv(c, w, {}) }

  ghost predicate Moved(c: Config, v: World, w: World, t: Target) {
    forall n: nat {:trigger Look(n)} :: Look(n) ==> Moves(c, v, w, t)
  }

  ghost predicate Since(v: World, w: World) { forall n: nat {:trigger Look(n)} :: Look(n) ==> Later(v, w) }

  ghost predicate Calm(c: Config, w: World) { forall n: nat {:trigger Look(n)} :: Look(n) ==> AllQuiet(c, w) }

  ghost predicate Free(w: World) {
    forall n: nat {:trigger Look(n)} :: Look(n) ==> forall u: Up | u in w.ups :: w.ups[u].active == 0
  }

  lemma Shape(c: Config, w: World)
    requires Sound(c, w)
    ensures |w.waiting| == |w.links| == |w.slots| == |w.full| == c.N()
  {
    assert Look(0);
  }

  lemma MovedSelf(c: Config, w: World, t: Target)
    requires Sound(c, w)
    ensures Moved(c, w, w, t) && Since(w, w)
  {
    assert Look(0);
    MovesSelf(c, w, t);
  }

  lemma MovedOn(c: Config, v: World, w: World, x: World, t: Target)
    requires Moved(c, v, w, t) && Moved(c, w, x, t)
    ensures Moved(c, v, x, t)
  {
    assert Look(0);
    MovesOn(c, v, w, x, t);
  }

  lemma SinceOn(v: World, w: World, x: World)
    requires Since(v, w) && Since(w, x)
    ensures Since(v, x)
  {
    assert Look(0);
    LaterOn(v, w, x);
  }

  lemma MovedSince(c: Config, v: World, w: World, t: Target)
    requires Moved(c, v, w, t)
    ensures Since(v, w) && v.of == w.of && w.reqs.Keys <= v.reqs.Keys
  {
    assert Look(0);
  }

  lemma ListsLive(c: Config, w: World, t: Target)
    requires Sound(c, w) && t < c.N()
    ensures t < |w.links|
    ensures forall i | 0 <= i < |w.links[t]| ::
      w.links[t][i] in w.ups && w.ups[w.links[t][i]].t == t && !w.ups[w.links[t][i]].dead
  {
    assert Look(0);
    assert LinkOk(w.ups, t, w.links[t]);
  }

  lemma RejectStep(c: Config, w: World, t: Target, k: nat, how: Outcome)
    requires Sound(c, w) && t < |w.waiting| && k < |w.waiting[t]| && Unserved(how)
    ensures var r := w.waiting[t][k];
      && r in w.reqs && r < |w.of| && w.of[r] == t && Increasing(w.waiting[t])
      && Sound(c, Rejected(w, r, how)) && Moved(c, w, Rejected(w, r, how), t)
      && Rejected(w, r, how).waiting[t] == w.waiting[t][..k] + w.waiting[t][k + 1..]
  {
    assert Look(0);
    assert QueueOk(c, w.of, w.reqs, t, w.waiting[t]);
    WithoutAt(w.waiting[t], k);
    RejectedKeeps(c, w, w.waiting[t][k], how);
    RejectedMoves(c, w, w.waiting[t][k], how);
  }

  lemma TimerStep(c: Config, w: World, t: Target, k: nat)
    requires Sound(c, w) && t < |w.waiting| && k < |w.waiting[t]|
    ensures var r := w.waiting[t][k]; r in w.reqs && Sound(c, Timed(w, r)) && Moved(c, w, Timed(w, r), t)
  {
    assert Look(0);
    assert QueueOk(c, w.of, w.reqs, t, w.waiting[t]);
    TimedKeeps(c, w, w.waiting[t][k]);
    TimedMoves(c, w, w.waiting[t][k]);
  }

  lemma OpenStep(c: Config, w: World, t: Target, connecting: bool)
    requires Sound(c, w) && t < |w.links| == |w.slots| == c.N()
    ensures Sound(c, Opened(w, t, connecting)) && Moved(c, w, Opened(w, t, connecting), t)
  {
    assert Look(0);
    OpenedKeeps(c, w, t, connecting);
    OpenedMoves(c, w, t, connecting);
  }

  lemma HandStep(c: Config, w: World, t: Target, u: Up)
    requires Sound(c, w) && t < |w.waiting| && w.waiting[t] != []
    requires u in w.ups && w.ups[u].t == t && !w.ups[u].dead && !w.ups[u].busy
    ensures var r := w.waiting[t][0]; r in w.reqs && r < |w.of| && w.of[r] == t
    ensures var v := HandedOver(w, t, u); Sound(c, v) && Moved(c, w, v, t) && v.waiting[t] == w.waiting[t][1..]
  {
    assert Look(0);
    HandedOverKeeps(c, w, t, u);
    HandedOverMoves(c, w, t, u);
  }

  lemma SeverStep(c: Config, w: World, u: Up, how: Outcome)
    requires Sound(c, w) && u in w.ups && !w.ups[u].dead && Served(how)
    ensures w.ups[u].current.Some? ==> w.ups[u].current.value in w.reqs
    ensures w.ups[u].t < |w.links| == |w.slots| && w.slots[w.ups[u].t] > 0
    ensures Sound(c, Severed(w, u, how)) && Moved(c, w, Severed(w, u, how), w.ups[u].t)
    ensures w.ups[u].current.Some? ==> Severed(w, u, how).reqs.Keys < w.reqs.Keys
  {
    assert Look(0);
    SeveredKeeps(c, w, u, how);
  }

  lemma ToldStep(c: Config, w: World, t: Target, held: bool)
    requires Sound(c, w) && t < |w.full|
    ensures Sound(c, Told(w, t, held)) && Moved(c, w, Told(w, t, held), t)
  {
    assert Look(0);
    ToldKeeps(c, w, t, held);
  }

  lemma QuietStep(c: Config, v: World, w: World, t: Target, s: Target)
    requires Sound(c, v) && Sound(c, w) && Moved(c, v, w, t) && s < c.N() && s != t
    requires |v.waiting| == |v.links| == |v.full| == c.N() && QuietAt(c, v, s)
    ensures |w.waiting| == |w.links| == |w.full| == c.N() && QuietAt(c, w, s)
  {
    assert Look(0);
    QuietElsewhere(c, v, w, t, s);
  }

  // ---- steps between two pumps ----

  lemma FreeSince(v: World, w: World)
    requires Free(v) && Since(v, w)
    ensures Free(w)
  {
    assert Look(0);
  }

  lemma ArriveStep(c: Config, w: World, t: Target, timer: bool)
    requires Sound(c, w) && t < |w.waiting| && (c.wait ==> |w.waiting[t]| < c.queueMax)
    requires c.wait && (forall n :: c.env.timerMade(n)) ==> timer
    ensures Sound(c, Arrived(w, t, timer)) && Since(w, Arrived(w, t, timer))
  {
    assert Look(0);
    ArrivedKeeps(c, w, t, timer);
    ArrivedLater(w, t, timer);
  }

  /** Steps that leave every target as quiet as it was. */
  ghost predicate Gentle(c: Config, v: World, w: World) {
    Sound(c, w) && Since(v, w) && (Calm(c, v) ==> Calm(c, w))
  }

  lemma TurnStep(c: Config, w: World, t: Target, how: Outcome)
    requires Sound(c, w) && t < c.N() && Unserved(how)
    ensures Gentle(c, w, Turned(w, t, how))
  {
    assert Look(0);
    TurnedKeeps(c, w, t, how);
    TurnedLater(w, t, how);
    if AllQuiet(c, w) { TurnedQuiet(c, w, t, how); }
  }

  /** A request leaves a queue. */
  lemma LeaveStep(c: Config, w: World, r: Req, how: Outcome)
    requires Sound(c, w) && r in w.reqs && w.reqs[r].queued && Unserved(how)
    ensures r < |w.of| && w.of[r] < |w.waiting| && Gentle(c, w, Rejected(w, r, how))
  {
    assert Look(0);
    var t := w.of[r];
    RejectedKeeps(c, w, r, how);
    RejectedMoves(c, w, r, how);
    if AllQuiet(c, w) {
      var v := Rejected(w, r, how);
      forall s | 0 <= s < c.N() ensures QuietAt(c, v, s) {
        assert QuietAt(c, w, s) && QueueOk(c, w.of, w.reqs, s, w.waiting[s]);
        if s != t { QuietElsewhere(c, w, v, t, s); } else { QuietWithout(c, w, t, r, how); }
      }
    }
  }

  /** The client of a request on a connection leaves; the connection stays busy. */
  lemma AbandonStep(c: Config, w: World, u: Up)
    requires Sound(c, w) && u in w.ups
    ensures w.ups[u].current.Some? ==> w.ups[u].current.value in w.reqs
    ensures Gentle(c, w, Concluded(w, u, ClientGone))
  {
    assert Look(0);
    ConcludedKeeps(c, w, u, ClientGone);
    ConcludedMoves(c, w, u, ClientGone);
    if AllQuiet(c, w) { ConcludedQuiet(c, w, u, ClientGone); }
  }

  lemma DropStep(c: Config, w: World, u: Up)
    requires Sound(c, w) && u in w.ups && !w.ups[u].dead && !w.ups[u].busy
    ensures w.ups[u].t < |w.links| == |w.slots| && w.slots[w.ups[u].t] > 0
    ensures Gentle(c, w, Dropped(w, u)) && |Dropped(w, u).links[w.ups[u].t]| < |w.links[w.ups[u].t]|
  {
    assert Look(0);
    DroppedKeeps(c, w, u);
    DroppedMoves(c, w, u);
    DroppedShorter(c, w, u);
    if AllQuiet(c, w) { DroppedQuiet(c, w, u); }
  }

  lemma FlagStep(c: Config, w: World, u: Up, p: Upstream)
    requires Sound(c, w) && u in w.ups && SameLink(p, w.ups[u]) && p.active == w.ups[u].active
    requires p.busy == w.ups[u].busy
    ensures Gentle(c, w, Flagged(w, u, p))
  {
    assert Look(0);
    FlaggedKeeps(c, w, u, p);
    FlaggedLater(w, u, p);
    if AllQuiet(c, w) { FlaggedQuiet(c, w, u, p); }
  }

  lemma HoldStep(c: Config, w: World, u: Up)
    requires Sound(c, w) && u in w.ups
    ensures Sound(c, Held(w, u)) && (Calm(c, w) ==> Calm(c, Held(w, u)))
  {
    assert Look(0);
    HeldKeeps(c, w, u);
    if AllQuiet(c, w) { HeldQuiet(c, w, u); }
  }

  lemma StillHeld(v: World, w: World, u: Up)
    requires Since(v, w) && u in v.ups && v.ups[u].active > 0
    ensures u in w.ups && w.ups[u].active == v.ups[u].active
  {
    assert Look(0);
  }

  lemma ReturnStep(c: Config, v: World, w: World, u: Up)
    requires Free(v) && u in v.ups && Since(Held(v, u), w) && Sound(c, w) && Calm(c, w)
    ensures u in w.ups && w.ups[u].active > 0
    ensures Sound(c, Returned(w, u)) && Calm(c, Returned(w, u)) && Since(v, Returned(w, u)) && Free(Returned(w, u))
  {
    assert Look(0);
    ReturnedKeeps(c, w, u);
    ReturnedQuiet(c, w, u);
    ReturnedLater(v, w, u);
  }

  /** The request on the connection is over and the connection idle. */
  function Done(w: World, u: Up): World
    requires u in w.ups && (w.ups[u].current.Some? ==> w.ups[u].current.value in w.reqs)
  {
    var v := Concluded(w, u, Finished);
    Flagged(v, u, w.ups[u].(current := None, busy := false))
  }

  lemma DoneStep(c: Config, w: World, u: Up)
    requires Sound(c, w) && u in w.ups
    ensures w.ups[u].current.Some? ==> w.ups[u].current.value in w.reqs
    ensures Sound(c, Done(w, u)) && Since(w, Done(w, u)) && Done(w, u).of == w.of
  {
    assert Look(0);
    ConcludedKeeps(c, w, u, Finished);
    ConcludedMoves(c, w, u, Finished);
    var v, p := Concluded(w, u, Finished), w.ups[u].(current := None, busy := false);
    FlaggedKeeps(c, v, u, p);
    FlaggedLater(v, u, p);
    LaterOn(w, v, Flagged(v, u, p));
  }

  lemma NoneDead(w: World, u: Up)
    requires Free(w) && u in w.ups
    ensures w.ups[u].active == 0
  {
    assert Look(0);
  }

  lemma LiveAtRest(c: Config, w: World, u: Up)
    requires Sound(c, w) && Free(w) && u in w.ups
    ensures w.ups[u].active == 0 && !w.ups[u].dead
    ensures u in Held(w, u).ups && Held(w, u).ups[u].active == 1 && !Held(w, u).ups[u].dead
  {
    assert Look(0);
  }

  lemma OnItsConnection(c: Config, w: World, r: Req)
    requires Sound(c, w) && r in w.reqs && !w.reqs[r].queued
    ensures w.reqs[r].up.Some? && w.reqs[r].up.value in w.ups && w.ups[w.reqs[r].up.value].current == Some(r)
  {
    assert Look(0);
  }

  lemma BusyWithRequest(c: Config, w: World, u: Up)
    requires Sound(c, w) && u in w.ups
    ensures (w.ups[u].current.Some? ==> w.ups[u].busy) && (w.ups[u].dead ==> w.ups[u].active > 0)
  {
    assert Look(0);
  }

  // ---- why a request is not served ----

  /** One attempt to open a connection, and what came of it. */
  datatype Try = Try(t: Target, answer: Connected)

  predicate Opens(a: Connected) { a.Now? || a.Underway? }

  /** From the `from`-th attempt on, the target could not be reached. */
  predicate Unreached(tries: seq<Try>, from: nat, t: Target) {
    exists i :: from <= i < |tries| && tries[i] == Try(t, CannotReach)
  }

  /** ... there was no slot for a connection, or none could be made for now. */
  predicate Denied(tries: seq<Try>, from: nat, t: Target) {
    exists i :: from <= i < |tries| && (tries[i] == Try(t, NoSlot) || tries[i] == Try(t, NotNow))
  }

  /** Why requests may be left in a queue: the wait policy also waits for a target that cannot be reached. */
  predicate Excused(c: Config, tries: seq<Try>, from: nat, t: Target) {
    Denied(tries, from, t) || (c.wait && Unreached(tries, from, t))
  }

  /** Why the pump may end a request this way. */
  predicate Reason(c: Config, how: Outcome, tries: seq<Try>, from: nat, t: Target) {
    match how
    case Unreachable => Unreached(tries, from, t)
    case Unavailable => !c.wait && Denied(tries, from, t)
    case Refused => false
    case ClientGone => false
    case _ => true
  }

  /** Every request that ended since has its reason among the attempts since. */
  ghost predicate Caused(c: Config, v: World, tv: seq<Try>, w: World, tw: seq<Try>) {
    forall n: nat {:trigger Look(n)} :: Look(n) ==>
      tv <= tw && forall r: Req | r in w.ended && r !in v.ended ::
        r < |w.of| && Reason(c, w.ended[r], tw, |tv|, w.of[r])
  }

  /** Every queue is empty, or has its reason among the attempts since. */
  ghost predicate Emptied(c: Config, w: World, tries: seq<Try>, from: nat) {
    forall n: nat {:trigger Look(n)} :: Look(n) ==>
      forall t | 0 <= t < |w.waiting| && w.waiting[t] != [] :: Excused(c, tries, from, t)
  }

  /** The answers are those of the environment. */
  ghost predicate Asked(c: Config, tries: seq<Try>) {
    forall n: nat {:trigger Look(n)} :: Look(n) ==>
      forall i | 0 <= i < |tries| :: exists k: nat :: tries[i].answer == c.env.connect(k)
  }

  /** All attempts ever made account for every request that was not served and every queue: one that was
      answered "unavailable" under the default policy was denied a connection. */
  ghost predicate Accountable(c: Config, w: World, tries: seq<Try>) {
    forall n: nat {:trigger Look(n)} :: Look(n) ==>
      && (forall r: Req | r in w.ended ::
          && r < |w.of| && (w.ended[r].Unreachable? ==> Unreached(tries, 0, w.of[r]))
          && (w.ended[r].Unavailable? ==> c.wait || Denied(tries, 0, w.of[r])))
      && (forall t | 0 <= t < |w.waiting| && w.waiting[t] != [] :: Excused(c, tries, 0, t))
  }

  /** These requests, and no others, have ended since, in this way. */
  ghost predicate OnlyEnded(v: World, w: World, rs: seq<Req>, how: Outcome) {
    forall n: nat {:trigger Look(n)} :: Look(n) ==>
      && (forall i | 0 <= i < |rs| :: EndsAs(w, rs[i], how))
      && (forall r: Req | r in w.ended && r !in v.ended :: r in rs)
  }

  lemma LongerTries(c: Config, tv: seq<Try>, tw: seq<Try>, from: nat, start: nat, t: Target)
    requires tv <= tw && start <= from
    ensures Unreached(tv, from, t) ==> Unreached(tw, start, t)
    ensures Denied(tv, from, t) ==> Denied(tw, start, t)
  {
    if Unreached(tv, from, t) {
      var i :| from <= i < |tv| && tv[i] == Try(t, CannotReach);
      assert tw[i] == Try(t, CannotReach);
    }
    if Denied(tv, from, t) {
      var i :| from <= i < |tv| && (tv[i] == Try(t, NoSlot) || tv[i] == Try(t, NotNow));
      assert tw[i] == tv[i];
    }
  }

  lemma TriesGrow(c: Config, v: World, tv: seq<Try>, w: World, tw: seq<Try>)
    requires Caused(c, v, tv, w, tw)
    ensures tv <= tw
  {
    assert Look(0);
  }

  lemma CausedSelf(c: Config, v: World, w: World, tries: seq<Try>)
    requires w.ended == v.ended
    ensures Caused(c, v, tries, w, tries)
  {
  }

  /** Nothing has ended. */
  lemma CausedTry(c: Config, v: World, tv: seq<Try>, w: World, tw: seq<Try>)
    requires w.ended == v.ended && tv <= tw
    ensures Caused(c, v, tv, w, tw)
  {
  }

  lemma CausedFrom(c: Config, u: World, v: World, tv: seq<Try>, w: World, tw: seq<Try>)
    requires Caused(c, v, tv, w, tw) && u.ended == v.ended
    ensures Caused(c, u, tv, w, tw)
  {
    assert Look(0);
  }

  lemma CausedReturned(c: Config, v: World, tv: seq<Try>, w: World, x: World, tw: seq<Try>)
    requires Caused(c, v, tv, w, tw) && x.ended == w.ended && x.of == w.of
    ensures Caused(c, v, tv, x, tw)
  {
    assert Look(0);
  }

  lemma CausedOn(c: Config, v: World, tv: seq<Try>, w: World, tw: seq<Try>, x: World, tx: seq<Try>)
    requires Caused(c, v, tv, w, tw) && Caused(c, w, tw, x, tx) && Since(w, x)
    ensures Caused(c, v, tv, x, tx)
  {
    assert Look(0);
    forall r: Req | r in x.ended && r !in v.ended ensures r < |x.of| && Reason(c, x.ended[r], tx, |tv|, x.of[r]) {
      if r in w.ended {
        LongerTries(c, tw, tx, |tv|, |tv|, w.of[r]);
      } else {
        LongerTries(c, tx, tx, |tw|, |tv|, x.of[r]);
      }
    }
  }

  lemma EmptiedSince(c: Config, w: World, tries: seq<Try>, from: nat, start: nat)
    requires Emptied(c, w, tries, from) && start <= from
    ensures Emptied(c, w, tries, start)
  {
    assert Look(0);
    forall t | 0 <= t < |w.waiting| && w.waiting[t] != [] ensures Excused(c, tries, start, t) {
      LongerTries(c, tries, tries, from, start, t);
    }
  }

  lemma EmptiedSame(c: Config, v: World, w: World, tries: seq<Try>, from: nat)
    requires Emptied(c, v, tries, from) && w.waiting == v.waiting
    ensures Emptied(c, w, tries, from)
  {
    assert Look(0);
  }

  /** A pump that ends with its queues emptied keeps the account. */
  lemma Accounts(c: Config, v: World, tv: seq<Try>, w: World, tw: seq<Try>)
    requires Accountable(c, v, tv) && Caused(c, v, tv, w, tw) && Emptied(c, w, tw, |tv|) && Since(v, w)
    ensures Accountable(c, w, tw)
  {
    assert Look(0);
    forall r: Req | r in w.ended
      ensures r < |w.of| && (w.ended[r].Unreachable? ==> Unreached(tw, 0, w.of[r]))
      ensures w.ended[r].Unavailable? ==> c.wait || Denied(tw, 0, w.of[r])
    {
      if r in v.ended {
        LongerTries(c, tv, tw, 0, 0, v.of[r]);
      } else {
        LongerTries(c, tw, tw, |tv|, 0, w.of[r]);
      }
    }
    forall t | 0 <= t < |w.waiting| && w.waiting[t] != [] ensures Excused(c, tw, 0, t) {
      LongerTries(c, tw, tw, |tv|, 0, t);
    }
  }

  lemma AccountsSame(c: Config, v: World, w: World, tries: seq<Try>)
    requires Accountable(c, v, tries) && w.of == v.of && w.ended == v.ended && w.waiting == v.waiting
    ensures Accountable(c, w, tries)
  {
    assert Look(0);
  }

  /** So does a step that lengthens no queue and ends nothing for want of a connection. */
  lemma AccountsStep(c: Config, v: World, w: World, tries: seq<Try>)
    requires Accountable(c, v, tries) && Since(v, w) && |w.waiting| == |v.waiting|
    requires forall t | 0 <= t < |v.waiting| :: |w.waiting[t]| <= |v.waiting[t]|
    requires forall r: Req | r in w.ended && r !in v.ended ::
      && r < |w.of| && !w.ended[r].Unreachable?
      && (w.ended[r].Unavailable? ==> c.wait || Denied(tries, 0, w.of[r]))
    ensures Accountable(c, w, tries)
  {
    assert Look(0);
  }

  /** The outcome of a turn that found no connection for target t. */
  ghost predicate Settled(c: Config, v: World, w: World, t: Target, unreachable: bool)
    requires t < c.N() && |v.waiting| == |v.links| == |w.waiting| == |w.full| == c.N()
  {
    if unreachable && !(c.wait && |v.links[t]| > 0) then
      w.waiting[t] == [] && OnlyEnded(v, w, v.waiting[t], Unreachable)
    else if c.wait then w.waiting == v.waiting && w.ended == v.ended
    else
      && w.waiting[t] <= v.waiting[t] && (!w.full[t] ==> w.waiting[t] == [])
      && OnlyEnded(v, w, v.waiting[t][|w.waiting[t]|..], Unavailable)
  }

  /** It is caused by the attempt that failed. */
  lemma SettledCaused(c: Config, v: World, w: World, t: Target, unreachable: bool, tv: seq<Try>, tw: seq<Try>)
    requires Sound(c, v) && v.of == w.of && t < c.N()
    requires |v.waiting| == |v.links| == |w.waiting| == |w.full| == c.N() && Settled(c, v, w, t, unreachable)
    requires |tw| == |tv| + 1 && tv <= tw && tw[|tv|].t == t && !Opens(tw[|tv|].answer)
    requires unreachable == tw[|tv|].answer.CannotReach?
    ensures Caused(c, v, tv, w, tw) && (w.waiting[t] != [] ==> Excused(c, tw, |tv|, t))
  {
    assert Look(0);
    var a := tw[|tv|];
    assert if unreachable then Unreached(tw, |tv|, t) else Denied(tw, |tv|, t);
    assert QueueOk(c, v.of, v.reqs, t, v.waiting[t]);
    forall r: Req | r in w.ended && r !in v.ended ensures r < |w.of| && Reason(c, w.ended[r], tw, |tv|, w.of[r]) {
      assert r in v.waiting[t];
    }
  }

  lemma OnlyEndedNone(v: World, how: Outcome)
    ensures OnlyEnded(v, v, [], how)
  {
  }

  lemma OnlyEndedMore(v: World, w: World, rs: seq<Req>, how: Outcome, r: Req)
    requires OnlyEnded(v, w, rs, how) && r in w.reqs && r < |w.of| && w.of[r] < |w.waiting|
    ensures OnlyEnded(v, Rejected(w, r, how), rs + [r], how)
  {
    assert Look(0);
  }

  lemma OnlyEndedFrom(v: World, u: World, w: World, rs: seq<Req>, how: Outcome)
    requires OnlyEnded(u, w, rs, how) && u.ended == v.ended
    ensures OnlyEnded(v, w, rs, how)
  {
    assert Look(0);
  }

  lemma SeveredCaused(c: Config, w: World, u: Up, how: Outcome, tries: seq<Try>)
    requires Sound(c, w) && u in w.ups && (w.ups[u].current.Some? ==> w.ups[u].current.value in w.reqs)
    requires w.ups[u].t < |w.links| == |w.slots| && w.slots[w.ups[u].t] > 0 && (how.Lost? || how.TimedOut?)
    ensures Caused(c, w, tries, Severed(w, u, how), tries)
  {
    assert Look(0);
  }

  lemma DoneCaused(c: Config, w: World, u: Up, tries: seq<Try>)
    requires Sound(c, w) && u in w.ups && (w.ups[u].current.Some? ==> w.ups[u].current.value in w.reqs)
    ensures Caused(c, w, tries, Done(w, u), tries)
  {
    assert Look(0);
  }

  // ---- no connection is forgotten ----

  /** Busy, although its request is gone: the client left, and the target has not finished. */
  predicate Abandoned(p: Upstream) { !p.dead && p.busy && p.current.None? }

  /** Open and without work. */
  predicate Spare(p: Upstream) { !p.dead && !p.busy && !p.connecting }

  /** No connection was abandoned since, and none but these became spare. */
  ghost predicate Tidy(v: World, w: World, made: set<Up>) {
    forall n: nat {:trigger Look(n)} :: Look(n) ==>
      forall u: Up | u in w.ups ::
        && (Abandoned(w.ups[u]) ==> u in v.ups && Abandoned(v.ups[u]))
        && (Spare(w.ups[u]) ==> u in made || (u in v.ups && Spare(v.ups[u]) && v.ups[u].t == w.ups[u].t))
  }

  ghost predicate NoSpare(w: World, t: Target) {
    forall n: nat {:trigger Look(n)} :: Look(n) ==> forall u: Up | u in w.ups && w.ups[u].t == t :: !Spare(w.ups[u])
  }

  lemma TidySelf(v: World, w: World)
    requires w.ups == v.ups
    ensures Tidy(v, w, {})
  {
  }

  lemma TidyMore(v: World, w: World, u: Up)
    requires Tidy(v, w, {})
    ensures Tidy(v, w, {u})
  {
    assert Look(0);
  }

  lemma TidyOn(v: World, w: World, x: World, made: set<Up>)
    requires Tidy(v, w, made) && Tidy(w, x, {})
    requires forall u: Up | u in made && u in x.ups :: !Spare(x.ups[u])
    ensures Tidy(v, x, {})
  {
    assert Look(0);
  }

  lemma SeveredTidy(w: World, u: Up, how: Outcome)
    requires u in w.ups && (w.ups[u].current.Some? ==> w.ups[u].current.value in w.reqs)
    requires w.ups[u].t < |w.links| == |w.slots| && w.slots[w.ups[u].t] > 0
    ensures Tidy(w, Severed(w, u, how), {})
  {
  }

  lemma DroppedTidy(w: World, u: Up)
    requires u in w.ups && w.ups[u].t < |w.links| == |w.slots| && w.slots[w.ups[u].t] > 0
    ensures Tidy(w, Dropped(w, u), {})
  {
  }

  lemma HandedTidy(w: World, t: Target, u: Up)
    requires t < |w.waiting| && w.waiting[t] != [] && w.waiting[t][0] in w.reqs && w.waiting[t][0] < |w.of|
    requires w.of[w.waiting[t][0]] == t && u in w.ups
    ensures Tidy(w, HandedOver(w, t, u), {}) && u in HandedOver(w, t, u).ups && !Spare(HandedOver(w, t, u).ups[u])
  {
  }

  lemma OpenedTidy(w: World, t: Target, connecting: bool)
    requires t < |w.links| == |w.slots|
    ensures Tidy(w, Opened(w, t, connecting), {w.nextUp})
  {
  }

  lemma StaysTaken(v: World, w: World, u: Up)
    requires Tidy(v, w, {}) && u in v.ups && u in w.ups
    ensures (!Spare(v.ups[u]) ==> !Spare(w.ups[u])) && (!Abandoned(v.ups[u]) ==> !Abandoned(w.ups[u]))
  {
    assert Look(0);
  }

  lemma NoSpareStays(v: World, w: World, t: Target)
    requires NoSpare(v, t) && Tidy(v, w, {})
    ensures NoSpare(w, t)
  {
    assert Look(0);
  }

  /** A connection that is on no list is dead, so lists in use leave none to spare. */
  lemma InUseNoSpare(c: Config, w: World, t: Target)
    requires Sound(c, w) && t < c.N() == |w.links| && InUse(w.links[t], w.ups)
    ensures NoSpare(w, t)
  {
    assert Look(0);
    forall u: Up | u in w.ups && w.ups[u].t == t ensures !Spare(w.ups[u]) {
      if !w.ups[u].dead { assert u in w.links[t]; }
    }
  }

  /** A request that arrived and did not end unserved, with no queue left to be in, was handed over. */
  lemma IsHanded(c: Config, v: World, tv: seq<Try>, w: World, tw: seq<Try>, r: Req)
    requires Sound(c, w) && Caused(c, v, tv, w, tw) && Emptied(c, w, tw, |tv|) && v.of == w.of
    requires r < |w.of| && r !in v.ended && !Unreached(tw, |tv|, w.of[r]) && !Denied(tw, |tv|, w.of[r])
    ensures r in w.handed
  {
    assert Look(0);
  }

  // ---- the gateway process ----

  datatype Event =
    | Arrives(t: Target, refused: bool)
    | Data(u: Up, ends: nat)
    | Failed(u: Up)
    | Writable(u: Up, connectFailed: bool)
    | Idle(u: Up)
    | Deadline(u: Up)
    | WaitOver(r: Req)
    | ClientLeft(r: Req)
    | Tick

  /** The request that was on the connection has ended this way. */
  ghost predicate EndsOn(v: World, w: World, u: Up, how: Outcome) {
    u in v.ups && v.ups[u].current.Some? ==> EndsAs(w, v.ups[u].current.value, how)
  }

  predicate EndsAs(w: World, r: Req, how: Outcome) { r in w.ended && w.ended[r] == how }

  /** The connection is gone, and its request with it. */
  ghost predicate Gone(v: World, w: World, u: Up, how: Outcome) { EndsOn(v, w, u, how) && u in w.freed }

  /** What an event has done, whatever else followed from it.  `tv` and `tw` are the attempts to connect before
      and after it: where the pump runs, every queue it leaves has its reason among the new ones.  The first
      question it asks is the n-th. */
  ghost predicate Handled(c: Config, n: nat, v: World, tv: seq<Try>, w: World, tw: seq<Try>, e: Event) {
    match e
    case Arrives(t, refused) => t < c.N() ==> Answered(c, v, tv, w, tw, t, refused)
    case Data(u, ends) =>
      ends > 0 && u in v.ups ==>
        EndsOn(v, w, u, Finished) && Emptied(c, w, tw, |tv|) && (u in w.ups ==> !Abandoned(w.ups[u]))
    case Failed(u) => u in v.ups ==> Gone(v, w, u, Lost) && Emptied(c, w, tw, |tv|)
    case Writable(u, connectFailed) =>
      u in v.ups && v.ups[u].connecting && connectFailed ==> Gone(v, w, u, Lost) && Emptied(c, w, tw, |tv|)
    case Idle(u) => u in v.ups && !v.ups[u].busy ==> u in w.freed
    case Deadline(u) => u in v.ups ==> Gone(v, w, u, TimedOut) && Emptied(c, w, tw, |tv|)
    case WaitOver(r) => r in v.reqs && v.reqs[r].queued && v.reqs[r].timer ==> EndsAs(w, r, Unavailable)
    case ClientLeft(r) => r in v.reqs ==> EndsAs(w, r, ClientGone)
    case Tick => Emptied(c, w, tw, |tv|) && GivenBack(c, n, w)
  }

  /** A tick asks of every target, from the n-th question on, whether siblings want connections; then none of
      that target's is spare any more. */
  ghost predicate GivenBack(c: Config, n: nat, w: World) { GivenTo(c, n, w, c.N()) }

  ghost predicate GivenTo(c: Config, n: nat, w: World, k: nat) {
    forall m: nat {:trigger Look(m)} :: Look(m) ==>
      forall t: nat | t < k && c.env.reclaimMoved(n + t) :: NoSpare(w, t)
  }

  lemma GivenNone(c: Config, n: nat, w: World)
    ensures GivenTo(c, n, w, 0)
  {
  }

  lemma GivenMore(c: Config, n: nat, v: World, w: World, k: nat)
    requires GivenTo(c, n, v, k) && Tidy(v, w, {}) && (c.env.reclaimMoved(n + k) ==> NoSpare(w, k))
    ensures GivenTo(c, n, w, k + 1)
  {
    GivenStays(c, n, v, w, k);
    assert Look(0);
  }

  lemma GivenStays(c: Config, n: nat, v: World, w: World, k: nat)
    requires GivenTo(c, n, v, k) && Tidy(v, w, {})
    ensures GivenTo(c, n, w, k)
  {
    forall t: nat | t < k && c.env.reclaimMoved(n + t) ensures NoSpare(w, t) {
      assert Look(0);
      NoSpareStays(v, w, t);
    }
  }

  /** A new request: refused, turned away from a queue that is full, or taken in.  One that is taken in is on
      its way when the call returns, unless an attempt to connect to its target has just failed. */
  ghost predicate Answered(c: Config, v: World, tv: seq<Try>, w: World, tw: seq<Try>, t: Target, refused: bool)
    requires t < c.N()
  {
    && w.of == v.of + [t]
    && (refused ==> EndsAs(w, |v.of|, Refused))
    && (!refused && c.wait && t < |v.waiting| && |v.waiting[t]| >= c.queueMax ==> EndsAs(w, |v.of|, Unavailable))
    && (!refused && t < |v.waiting| && (c.wait ==> |v.waiting[t]| < c.queueMax) ==>
          && Emptied(c, w, tw, |tv|)
          && (|v.of| in w.handed || Unreached(tw, |tv|, t) || Denied(tw, |tv|, t)))
  }

  predicate InUse(list: seq<Up>, ups: map<Up, Upstream>) {
    forall i | 0 <= i < |list| :: list[i] in ups && (ups[list[i]].busy || ups[list[i]].connecting)
  }

  /** Dropping a connection leaves the ones in front of it on the list. */
  lemma DroppedKeepsFront(c: Config, w: World, t: Target, k: nat)
    requires Sound(c, w) && t < c.N() == |w.links| && k < |w.links[t]| && InUse(w.links[t][..k], w.ups)
    requires var u := w.links[t][k]; u in w.ups && w.ups[u].t == t && w.ups[u].active == 0
    requires var u := w.links[t][k]; t < |w.slots| == |w.links| && w.slots[t] > 0
    ensures var v := Dropped(w, w.links[t][k]);
      |v.links| == |w.links| && k <= |v.links[t]| && v.links[t][..k] == w.links[t][..k] && InUse(v.links[t][..k], v.ups)
  {
    assert Look(0);
    assert LinkOk(w.ups, t, w.links[t]);
    WithoutAt(w.links[t], k);
    var list := w.links[t];
    assert (list[..k] + list[k + 1..])[..k] == list[..k];
  }

  /** What has ended and what was freed stays so. */
  lemma Stays(v: World, w: World, x: World, u: Up, how: Outcome)
    requires Since(w, x)
    ensures EndsOn(v, w, u, how) ==> EndsOn(v, x, u, how)
    ensures u in w.freed ==> u in x.freed
  {
    assert Look(0);
  }

  /** Holding and returning a connection changes nothing of what ended. */
  lemma HeldEnds(v: World, w: World, u: Up, how: Outcome)
    requires u in v.ups && u in w.ups && w.ups[u].active > 0
    ensures EndsOn(Held(v, u), w, u, how) ==> EndsOn(v, Returned(w, u), u, how)
    ensures Held(v, u).ups[u].active > 0 && Held(v, u).ups[u].dead == v.ups[u].dead && Held(v, u).of == v.of
    ensures Returned(w, u).of == w.of
  {
  }

  lemma SeveredEnds(w: World, u: Up, how: Outcome)
    requires u in w.ups && (w.ups[u].current.Some? ==> w.ups[u].current.value in w.reqs)
    requires w.ups[u].t < |w.links| == |w.slots| && w.slots[w.ups[u].t] > 0
    ensures EndsOn(w, Severed(w, u, how), u, how) && (w.ups[u].active == 0 ==> u in Severed(w, u, how).freed)
  {
  }

  lemma AskedMore(c: Config, tries: seq<Try>, t: Target, n: nat)
    requires Asked(c, tries)
    ensures Asked(c, tries + [Try(t, c.env.connect(n))])
  {
    assert Look(0);
    var more := tries + [Try(t, c.env.connect(n))];
    forall i | 0 <= i < |more| ensures exists k: nat :: more[i].answer == c.env.connect(k) {
      if i < |tries| { assert more[i] == tries[i]; }
    }
  }

  lemma HandedStays(v: World, w: World, r: Req)
    requires Since(v, w) && r in v.handed
    ensures r in w.handed
  {
    assert Look(0);
  }

  lemma SameElsewhere(c: Config, v: World, w: World, t: Target, s: Target)
    requires Moved(c, v, w, t) && s < c.N() && s != t
    ensures |v.waiting| == |w.waiting| == c.N() && w.waiting[s] == v.waiting[s]
  {
    assert Look(0);
  }

  lemma ArrivedFresh(c: Config, w: World)
    requires Sound(c, w)
    ensures |w.of| !in w.ended
  {
    assert Look(0);
  }

  lemma ArrivedAll(c: Config, w: World, r: Req)
    requires Sound(c, w) && r in w.reqs
    ensures r < |w.of|
  {
    assert Look(0);
  }

  /** Under the default policy a request that is still queued was denied a connection. */
  lemma QueuedExcused(c: Config, w: World, tries: seq<Try>, r: Req)
    requires Sound(c, w) && Accountable(c, w, tries) && r in w.reqs && w.reqs[r].queued
    ensures r < |w.of| && (c.wait || Denied(tries, 0, w.of[r]))
  {
    assert Look(0);
    assert r in w.waiting[w.of[r]];
  }

  /** A request leaves its queue. */
  lemma LeftAccounts(c: Config, w: World, r: Req, how: Outcome, tries: seq<Try>)
    requires Sound(c, w) && Accountable(c, w, tries) && r in w.reqs && w.reqs[r].queued
    requires r < |w.of| && w.of[r] < |w.waiting| && Since(w, Rejected(w, r, how))
    requires how.ClientGone? || (how.Unavailable? && (c.wait || Denied(tries, 0, w.of[r])))
    ensures Accountable(c, Rejected(w, r, how), tries)
  {
    var v := Rejected(w, r, how);
    assert Increasing(w.waiting[w.of[r]]) by {
      assert Look(0);
      assert QueueOk(c, w.of, w.reqs, w.of[r], w.waiting[w.of[r]]);
    }
    WithoutSpec(w.waiting[w.of[r]], r);
    AccountsStep(c, w, v, tries);
  }

  /** Of the queue in v, what is between the first `kept` requests and the tail that is left has been answered. */
  ghost predicate CutTo(v: World, w: World, t: Target, kept: nat) {
    forall n: nat {:trigger Look(n)} :: Look(n) ==>
      && t < |v.waiting| && t < |w.waiting| && kept <= |w.waiting[t]| <= |v.waiting[t]|
      && var queue, k := v.waiting[t], |v.waiting[t]| - |w.waiting[t]| + kept;
         w.waiting[t] == queue[..kept] + queue[k..] && OnlyEnded(v, w, queue[kept..k], Unavailable)
  }

  lemma CutStarts(v: World, t: Target, kept: nat)
    requires t < |v.waiting| && kept <= |v.waiting[t]|
    ensures CutTo(v, v, t, kept)
  {
    var queue := v.waiting[t];
    assert queue == queue[..kept] + queue[kept..] && queue[kept..kept] == [];
    OnlyEndedNone(v, Unavailable);
  }

  lemma CutStep(v: World, w: World, t: Target, kept: nat)
    requires CutTo(v, w, t, kept) && t < |w.waiting| && kept < |w.waiting[t]| && Increasing(w.waiting[t])
    requires var r := w.waiting[t][kept]; r in w.reqs && r < |w.of| && w.of[r] == t
    ensures CutTo(v, Rejected(w, w.waiting[t][kept], Unavailable), t, kept)
  {
    assert Look(0);
    var queue, k := v.waiting[t], |v.waiting[t]| - |w.waiting[t]| + kept;
    CutOne(queue, kept, k);
    WithoutAt(w.waiting[t], kept);
    OnlyEndedMore(v, w, queue[kept..k], Unavailable, queue[k]);
  }

  lemma CutEnds(v: World, w: World, t: Target, kept: nat)
    requires CutTo(v, w, t, kept) && t < |w.waiting| && |w.waiting[t]| <= kept
    ensures t < |v.waiting| && kept <= |v.waiting[t]| && w.waiting[t] == v.waiting[t][..kept]
    ensures OnlyEnded(v, w, v.waiting[t][kept..], Unavailable)
  {
    assert Look(0);
  }

  lemma CutOne(queue: seq<Req>, kept: nat, k: nat)
    requires kept <= k < |queue|
    ensures var q := queue[..kept] + queue[k..];
      q[kept] == queue[k] && q[..kept] + q[kept + 1..] == queue[..kept] + queue[k + 1..]
    ensures queue[kept..k] + [queue[k]] == queue[kept..k + 1]
  {
  }

  class Gateway {
    const c: Config
    var of: seq<Target>
    var waiting: seq<seq<Req>>
    var reqs: map<Req, Request>
    var ended: map<Req, Outcome>
    ghost var handed: seq<Req>
    var links: seq<seq<Up>>
    var ups: map<Up, Upstream>
    ghost var freed: set<Up>
    var nextUp: nat
    var slots: seq<nat>
    ghost var full: seq<bool>
    ghost var tries: seq<Try>
    var pumping: bool
    var pumpAgain: bool
    var asked: nat           // questions put to the environment so far

    ghost function W(): World
      reads this
    {
      World(of, waiting, reqs, ended, handed, links, ups, freed, nextUp, slots, full)
    }

    ghost predicate Ok()
      reads this
    {
      Sound(c, W()) && Asked(c, tries)
    }

    /** Between two events. */
    ghost predicate Rest()
      reads this
    {
      Ok() && !pumping && Calm(c, W()) && Free(W()) && Accountable(c, W(), tries)
    }

    constructor (c: Config)
      ensures this.c == c && Rest() && of == []
    {
      this.c := c;
      of, reqs, ended, handed := [], map[], map[], [];
      waiting, links := seq(c.N(), _ => []), seq(c.N(), _ => []);
      slots, full := seq(c.N(), _ => 0), seq(c.N(), _ => false);
      ups, freed, nextUp := map[], {}, 0;
      pumping, pumpAgain, asked, tries := false, false, 0, [];
    }

    // ---- one request, one connection ----

    /** Unlinks a queued request, answers it and frees it. */
    method Reject(r: Req, how: Outcome)
      requires r in reqs && r < |of| && of[r] < |waiting|
      modifies this`waiting, this`reqs, this`ended
      ensures W() == Rejected(old(W()), r, how)
    {
      waiting := waiting[of[r] := Without(waiting[of[r]], r)];
      reqs := reqs[r := reqs[r].(queued := false)];
      reqs := reqs - {r};
      ended := ended[r := how];
    }

    /** The request on a connection is answered and freed; the connection forgets it. */
    method Conclude(u: Up, how: Outcome)
      requires u in ups && (ups[u].current.Some? ==> ups[u].current.value in reqs)
      modifies this`reqs, this`ended, this`ups
      ensures W() == Concluded(old(W()), u, how)
    {
      if ups[u].current.Some? {
        var r := ups[u].current.value;
        ghost var w := CutLoose(W(), u);
        reqs := reqs - {r};
        ended := ended[r := how];
        ups := ups[u := ups[u].(current := None)];
        assert w.reqs - {r} == reqs;
      }
    }

    /** Detaches the connection; the struct is freed unless a caller up the stack still reads it. */
    method Drop(u: Up)
      requires u in ups && ups[u].t < |links| == |slots| && slots[ups[u].t] > 0
      modifies this`links, this`slots, this`ups, this`freed
      ensures W() == Dropped(old(W()), u)
    {
      var t := ups[u].t;
      links := links[t := Without(links[t], u)];
      slots := slots[t := slots[t] - 1];
      if ups[u].active > 0 {
        ups := ups[u := ups[u].(dead := true)];
      } else {
        ups := ups - {u};
        freed := freed + {u};
      }
    }

    /** Takes a slot and opens a connection; a connection that fails at once gives the slot back. */
    method Connect(t: Target) returns (u: Option<Up>, unreachable: bool)
      requires t < |links| == |slots|
      modifies this`links, this`slots, this`ups, this`nextUp, this`asked, this`tries
      ensures tries == old(tries) + [Try(t, c.env.connect(old(asked)))]
      ensures var answer := c.env.connect(old(asked));
        && unreachable == answer.CannotReach? && u == (if Opens(answer) then Some(old(nextUp)) else None)
        && W() == if Opens(answer) then Opened(old(W()), t, answer.Underway?) else old(W())
    {
      ghost var w := W();
      var answer := c.env.connect(asked);
      tries := tries + [Try(t, answer)];
      asked := asked + 1;
      u, unreachable := None, false;
      if answer.NoSlot? {
        return;
      }
      if answer.NotNow? || answer.CannotReach? {
        slots := slots[t := slots[t] + 1];
        slots := slots[t := slots[t] - 1];
        unreachable := answer.CannotReach?;
        assert slots == w.slots;
        return;
      }
      u := Some(nextUp);
      Open(t, answer.Underway?);
    }

    method Open(t: Target, connecting: bool)
      requires t < |links| == |slots|
      modifies this`links, this`slots, this`ups, this`nextUp
      ensures W() == Opened(old(W()), t, connecting)
    {
      slots := slots[t := slots[t] + 1];
      ups := ups[nextUp := Upstream(t, false, None, connecting, 0, false)];
      links := links[t := links[t] + [nextUp]];
      nextUp := nextUp + 1;
    }

    /** The first connection of the target that is not busy. */
    method FindIdle(t: Target) returns (u: Option<Up>)
      requires t < |links| && forall i | 0 <= i < |links[t]| :: links[t][i] in ups
      ensures u.Some? ==> exists k ::
        && 0 <= k < |links[t]| && links[t][k] == u.value && !ups[u.value].busy
        && forall j | 0 <= j < k :: ups[links[t][j]].busy
      ensures u.None? ==> AllBusy(t)
    {
      for i := 0 to |links[t]|
        invariant forall k | 0 <= k < i :: ups[links[t][k]].busy
      {
        if !ups[links[t][i]].busy {
          return Some(links[t][i]);
        }
      }
      u := None;
    }

    ghost predicate AllBusy(t: Target)
      reads this
    {
      t < |links| && forall i | 0 <= i < |links[t]| :: links[t][i] in ups && ups[links[t][i]].busy
    }

    // ---- the queue of one target ----

    /** Answers everything that waits for the target. */
    method Drain(t: Target, how: Outcome)
      requires Ok() && t < |waiting| && Unserved(how)
      modifies this`waiting, this`reqs, this`ended
      ensures Ok() && Moved(c, old(W()), W(), t) && |waiting| == |old(waiting)| && waiting[t] == []
      ensures OnlyEnded(old(W()), W(), old(waiting[t]), how)
    {
      ghost var w0 := W();
      ghost var queue, k := waiting[t], 0;
      MovedSelf(c, w0, t);
      OnlyEndedNone(w0, how);
      while waiting[t] != []
        invariant Ok() && Moved(c, w0, W(), t) && |waiting| == |old(waiting)|
        invariant k <= |queue| && waiting[t] == queue[k..] && OnlyEnded(w0, W(), queue[..k], how)
        decreases |waiting[t]|
      {
        ghost var w := W();
        RejectStep(c, w, t, 0, how);
        OnlyEndedMore(w0, w, queue[..k], how, queue[k]);
        Reject(waiting[t][0], how);
        MovedOn(c, w0, w, W(), t);
        assert queue[..k + 1] == queue[..k] + [queue[k]];
        k := k + 1;
      }
      assert queue[..k] == queue;
    }

    /** The first k requests of the target's queue have their timers. */
    ghost predicate TimedTo(k: nat, t: Target)
      reads this
    {
      t < |waiting| && TimersTo(waiting[t], reqs, k)
    }

    /** Sets the timer of a request that has none. */
    method SetTimer(r: Req) returns (made: bool)
      requires r in reqs
      modifies this`reqs, this`asked
      ensures made == c.env.timerMade(old(asked)) && W() == if made then Timed(old(W()), r) else old(W())
    {
      made := c.env.timerMade(asked);
      asked := asked + 1;
      if made {
        reqs := reqs[r := reqs[r].(timer := true)];
      }
    }

    /** Sets the short timer on the head of the queue, at most one request per worker the target can
        have. */
    method SetTimers(t: Target) returns (kept: nat)
      requires Ok() && t < |waiting| == c.N()
      modifies this`reqs, this`asked
      ensures Ok() && Moved(c, old(W()), W(), t)
      ensures kept <= c.maxUp[t] && TimedTo(kept, t)
      ensures kept == Min(|waiting[t]|, c.maxUp[t]) || exists n: nat :: !c.env.timerMade(n)
    {
      ghost var w0 := W();
      kept := 0;
      MovedSelf(c, w0, t);
      while kept < |waiting[t]| && kept < c.maxUp[t]
        invariant kept <= c.maxUp[t] && TimedTo(kept, t)
        invariant Ok() && Moved(c, w0, W(), t)
      {
        ghost var w := W();
        TimerStep(c, w, t, kept);
        TimersNext(waiting[t], reqs, kept);
        if !reqs[waiting[t][kept]].timer {
          var made := SetTimer(waiting[t][kept]);
          if !made {
            break;
          }
          MovedOn(c, w0, w, W(), t);
        }
        kept := kept + 1;
      }
    }

    /** Answers what is behind the first `kept` requests. */
    method CutTail(t: Target, kept: nat)
      requires Ok() && TimedTo(kept, t)
      modifies this`waiting, this`reqs, this`ended
      ensures Ok() && Moved(c, old(W()), W(), t)
      ensures |waiting| == |old(waiting)| && waiting[t] == old(waiting[t])[..kept] && TimedTo(kept, t)
      ensures OnlyEnded(old(W()), W(), old(waiting[t])[kept..], Unavailable)
    {
      ghost var w0 := W();
      MovedSelf(c, w0, t);
      CutStarts(w0, t, kept);
      while |waiting[t]| > kept
        invariant |waiting| == |old(waiting)| && TimedTo(kept, t)
        invariant Ok() && Moved(c, w0, W(), t) && CutTo(w0, W(), t, kept)
        decreases |waiting[t]|
      {
        ghost var w := W();
        RejectStep(c, w, t, kept, Unavailable);
        TimersCut(c, w, t, kept);
        CutStep(w0, w, t, kept);
        Reject(waiting[t][kept], Unavailable);
        MovedOn(c, w0, w, W(), t);
      }
      CutEnds(w0, W(), t, kept);
    }

    /** Lets the head of the queue wait a little for a sibling's connection and answers the rest. */
    method Grace(t: Target) returns (kept: nat)
      requires Ok() && t < |waiting| == c.N()
      modifies this`waiting, this`reqs, this`ended, this`asked
      ensures Ok() && Moved(c, old(W()), W(), t) && |waiting| == c.N()
      ensures kept > 0 ==> |waiting[t]| == kept <= c.maxUp[t] && TimedTo(kept, t)
      ensures kept <= |old(waiting[t])|
      ensures kept > 0 ==>
        waiting[t] == old(waiting[t])[..kept] && OnlyEnded(old(W()), W(), old(waiting[t])[kept..], Unavailable)
      ensures kept == 0 ==> waiting == old(waiting) && ended == old(ended)
      ensures kept == Min(|old(waiting[t])|, c.maxUp[t]) || exists n: nat :: !c.env.timerMade(n)
    {
      ghost var w0 := W();
      kept := SetTimers(t);
      if kept > 0 {
        ghost var w1 := W();
        CutTail(t, kept);
        MovedOn(c, w0, w1, W(), t);
        OnlyEndedFrom(w0, w1, W(), w0.waiting[t][kept..], Unavailable);
      }
    }

    /** Do sibling processes hold part of this target's budget? */
    method SiblingsHold(t: Target) returns (held: bool)
      requires t < |full|
      modifies this`full, this`asked
      ensures held == c.env.siblingsHold(old(asked)) && W() == Told(old(W()), t, held)
    {
      held := c.env.siblingsHold(asked);
      asked := asked + 1;
      full := full[t := held];
    }

    /** No connection can be had: the queue is answered, or part of it is left to wait. */
    method Saturated(t: Target, unreachable: bool)
      requires Ok() && t < c.N() == |waiting| == |links| == |full| && AllBusy(t)
      modifies this`waiting, this`reqs, this`ended, this`asked, this`full
      ensures Ok() && Moved(c, old(W()), W(), t) && |waiting| == |links| == |full| == c.N() && QuietAt(c, W(), t)
      ensures Settled(c, old(W()), W(), t, unreachable)
      ensures !c.wait && !unreachable && (forall n: nat :: c.env.timerMade(n)) ==>
        |waiting[t]| == if c.env.siblingsHold(old(asked)) then Min(|old(waiting[t])|, c.maxUp[t]) else 0
    {
      if unreachable && !(c.wait && |links[t]| > 0) {
        Drain(t, Unreachable);
        return;
      }
      ghost var w0 := W();
      var held := SiblingsHold(t);
      ToldStep(c, w0, t, held);
      ghost var w1 := W();
      if held && !c.wait {
        var kept := Grace(t);
        MovedOn(c, w0, w1, W(), t);
        if kept > 0 {
          OnlyEndedFrom(w0, w1, W(), w0.waiting[t][kept..], Unavailable);
          return;
        }
      }
      if c.wait {
        return;
      }
      ghost var w2 := W();
      Drain(t, Unavailable);
      MovedOn(c, w0, w2, W(), t);
      OnlyEndedFrom(w0, w2, W(), w0.waiting[t], Unavailable);
      assert w0.waiting[t][0..] == w0.waiting[t];
    }

    // ---- a connection fails ----

    method Sever(u: Up, how: Outcome)
      requires u in ups && (ups[u].current.Some? ==> ups[u].current.value in reqs)
      requires ups[u].t < |links| == |slots| && slots[ups[u].t] > 0
      modifies this`reqs, this`ended, this`links, this`slots, this`ups, this`freed
      ensures W() == Severed(old(W()), u, how)
    {
      Conclude(u, how);
      Drop(u);
    }

    /** The connection is gone: its request is lost, the connection is dropped, and its slot may serve
        a queued request. */
    method Fail(u: Up, how: Outcome)
      requires Ok() && u in ups && !ups[u].dead && (how.Lost? || how.TimedOut?)
      modifies this
      ensures Ok() && pumping == old(pumping) && Caused(c, old(W()), old(tries), W(), tries)
      ensures Tidy(old(W()), W(), {}) && (old(pumping) ==> asked == old(asked))
      ensures !old(pumping) ==> Emptied(c, W(), tries, |old(tries)|)
      ensures old(pumping) ==> waiting == old(waiting) && Moved(c, old(W()), W(), old(ups[u].t))
      ensures old(pumping) && old(ups[u].current.Some?) ==> reqs.Keys < old(reqs.Keys)
      ensures !old(pumping) ==> Calm(c, W()) && Since(old(W()), W()) && of == old(of)
      ensures EndsOn(old(W()), W(), u, how) && (old(ups[u].active) == 0 ==> u in freed)
      decreases if pumping then 0 else 1, 2
    {
      ghost var w0 := W();
      SeverStep(c, w0, u, how);
      SeveredEnds(w0, u, how);
      SeveredCaused(c, w0, u, how, tries);
      SeveredTidy(w0, u, how);
      ghost var tried := tries;
      Sever(u, how);
      ghost var w1 := W();
      MovedSince(c, w0, w1, w0.ups[u].t);
      Pump();
      TidyOn(w0, w1, W(), {});
      if !pumping {
        SinceOn(w0, w1, W());
        Stays(w0, w1, W(), u, how);
        CausedOn(c, w0, tried, w1, tried, W(), tries);
      }
    }

    /** Writes the request; a hard error fails the connection on the spot. */
    method Write(u: Up)
      requires Ok() && pumping && u in ups && !ups[u].dead && ups[u].current.Some?
      modifies this
      ensures Ok() && pumping && waiting == old(waiting) && Moved(c, old(W()), W(), old(ups[u].t))
      ensures Caused(c, old(W()), old(tries), W(), tries) && Tidy(old(W()), W(), {})
      ensures asked >= old(asked) + (if old(ups[u].connecting) then 0 else 1)
      ensures if !old(ups[u].connecting) && c.env.writeFails(old(asked)) then
          EndsOn(old(W()), W(), u, Lost) && (old(ups[u].active) == 0 ==> u in freed)
        else W() == old(W())
      ensures pumpAgain ==> old(pumpAgain) || reqs.Keys < old(reqs.Keys)
      decreases 0, 3
    {
      MovedSelf(c, W(), ups[u].t);
      CausedSelf(c, W(), W(), tries);
      TidySelf(W(), W());
      if !ups[u].connecting {
        var fails := c.env.writeFails(asked);
        asked := asked + 1;
        if fails {
          Fail(u, Lost);
        }
      }
    }

    // ---- the pump ----

    /** An idle connection, or a new one. */
    method Acquire(t: Target) returns (u: Option<Up>, unreachable: bool)
      requires Ok() && t < c.N()
      modifies this`links, this`slots, this`ups, this`nextUp, this`asked, this`tries
      ensures Ok() && Moved(c, old(W()), W(), t) && waiting == old(waiting) && ended == old(ended)
      ensures u.Some? ==> u.value in ups && ups[u.value].t == t && !ups[u.value].busy && !ups[u.value].dead
      ensures u.None? ==> AllBusy(t)
      ensures tries == old(tries) || (old(AllBusy(t)) && tries == old(tries) + [Try(t, c.env.connect(old(asked)))])
      ensures u.None? <==> |tries| > |old(tries)| && !Opens(c.env.connect(old(asked)))
      ensures u.None? ==> unreachable == c.env.connect(old(asked)).CannotReach?
      ensures Tidy(old(W()), W(), if u.Some? then {u.value} else {})
    {
      ghost var w := W();
      Shape(c, w);
      ListsLive(c, w, t);
      MovedSelf(c, w, t);
      TidySelf(w, w);
      unreachable := false;
      u := FindIdle(t);
      if u.Some? { TidyMore(w, w, u.value); }
      if u.None? {
        ghost var n, tried := asked, tries;
        u, unreachable := Connect(t);
        AskedMore(c, tried, t, n);
        OpenStep(c, w, t, c.env.connect(n).Underway?);
        OpenedTidy(w, t, c.env.connect(n).Underway?);
      }
    }

    method Attach(t: Target, u: Up)
      requires t < |waiting| && waiting[t] != [] && waiting[t][0] in reqs && waiting[t][0] < |of|
      requires of[waiting[t][0]] == t && u in ups
      modifies this`waiting, this`reqs, this`ups, this`handed
      ensures W() == HandedOver(old(W()), t, u)
    {
      var r := waiting[t][0];
      waiting := waiting[t := Without(waiting[t], r)];
      reqs := reqs[r := reqs[r].(queued := false)];
      reqs := reqs[r := reqs[r].(timer := false, up := Some(u))];
      ups := ups[u := ups[u].(busy := true, current := Some(r))];
      handed := handed + [r];
    }

    /** The head of the queue becomes the connection's request and is written to it. */
    method HandOver(t: Target, u: Up)
      requires Ok() && pumping && t < |waiting| && waiting[t] != []
      requires u in ups && ups[u].t == t && !ups[u].busy && !ups[u].dead
      modifies this
      ensures Ok() && pumping && Moved(c, old(W()), W(), t) && Caused(c, old(W()), old(tries), W(), tries)
      ensures |waiting| == |old(waiting)| && waiting[t] == old(waiting[t])[1..] && old(waiting[t][0]) in handed
      ensures Tidy(old(W()), W(), {}) && (u in ups ==> !Spare(ups[u]))
      ensures asked >= old(asked) + (if old(ups[u].connecting) then 0 else 1)
      ensures if !old(ups[u].connecting) && c.env.writeFails(old(asked)) then EndsAs(W(), old(waiting[t][0]), Lost)
        else u in ups && ups[u].current == old(Some(waiting[t][0])) && ended == old(ended)
      ensures pumpAgain ==> old(pumpAgain) || reqs.Keys < old(reqs.Keys)
      decreases 0, 4
    {
      ghost var w := W();
      HandStep(c, w, t, u);
      ghost var tried := tries;
      Attach(t, u);
      ghost var w1 := W();
      MovedSince(c, w, w1, t);
      CausedSelf(c, w, w1, tried);
      HandedTidy(w, t, u);
      Write(u);
      TidyOn(w, w1, W(), {});
      if u in ups { StaysTaken(w1, W(), u); }
      MovedOn(c, w, w1, W(), t);
      MovedSince(c, w1, W(), t);
      CausedOn(c, w, tried, w1, tried, W(), tries);
      HandedStays(w1, W(), w.waiting[t][0]);
    }

    /** One turn of a round: the head of the queue is handed over, or the round ends. */
    method Turn(t: Target) returns (done: bool)
      requires Ok() && pumping && t < |waiting| == c.N() && waiting[t] != []
      modifies this
      ensures Ok() && pumping && Moved(c, old(W()), W(), t) && |waiting| == |links| == |full| == c.N()
      ensures Caused(c, old(W()), old(tries), W(), tries) && Tidy(old(W()), W(), {})
      ensures if done then QuietAt(c, W(), t) && (waiting[t] != [] ==> Excused(c, tries, |old(tries)|, t))
        else waiting[t] == old(waiting[t])[1..] && old(waiting[t][0]) in handed
      ensures pumpAgain ==> old(pumpAgain) || reqs.Keys < old(reqs.Keys)
      decreases 0, 5
    {
      ghost var w0 := W();
      ghost var tried := tries;
      var idle, unreachable := Acquire(t);
      ghost var w1, t1 := W(), tries;
      Shape(c, w1);
      done := idle.None?;
      if done {
        Saturated(t, unreachable);
        MovedSince(c, w1, W(), t);
        SettledCaused(c, w1, W(), t, unreachable, tried, tries);
        CausedFrom(c, w0, w1, tried, W(), tries);
        TidySelf(w1, W());
        TidyOn(w0, w1, W(), {});
      } else {
        CausedTry(c, w0, tried, w1, t1);
        HandOver(t, idle.value);
        Shape(c, W());
        MovedSince(c, w1, W(), t);
        CausedOn(c, w0, tried, w1, t1, W(), tries);
        TidyOn(w0, w1, W(), {idle.value});
      }
      MovedOn(c, w0, w1, W(), t);
    }

    /** One dispatch round for one target. */
    method PumpTarget(t: Target)
      requires Ok() && pumping && t < |waiting| == |links| == |full| == c.N()
      modifies this
      ensures Ok() && pumping && Moved(c, old(W()), W(), t)
      ensures |waiting| == |links| == |full| == c.N() && QuietAt(c, W(), t)
      ensures Caused(c, old(W()), old(tries), W(), tries) && Tidy(old(W()), W(), {})
      ensures waiting[t] != [] ==> Excused(c, tries, |old(tries)|, t)
      ensures pumpAgain ==> old(pumpAgain) || reqs.Keys < old(reqs.Keys)
      decreases 0, 6
    {
      ghost var w0, t0 := W(), tries;
      MovedSelf(c, w0, t);
      CausedSelf(c, w0, w0, t0);
      TidySelf(w0, w0);
      while waiting[t] != []
        invariant Ok() && pumping && Moved(c, w0, W(), t) && |waiting| == |links| == |full| == c.N()
        invariant Caused(c, w0, t0, W(), tries) && Tidy(w0, W(), {})
        invariant pumpAgain ==> old(pumpAgain) || reqs.Keys < w0.reqs.Keys
        decreases |waiting[t]|
      {
        ghost var w, t1 := W(), tries;
        MovedSince(c, w0, w, t);
        TriesGrow(c, w0, t0, w, t1);
        var done := Turn(t);
        MovedSince(c, w, W(), t);
        MovedOn(c, w0, w, W(), t);
        CausedOn(c, w0, t0, w, t1, W(), tries);
        LongerTries(c, tries, tries, |t1|, |t0|, t);
        TidyOn(w0, w, W(), {});
        if done {
          return;
        }
      }
    }

    /** One dispatch round over every target. */
    method PumpOnce()
      requires Ok() && pumping
      modifies this
      ensures Ok() && pumping && Calm(c, W()) && Since(old(W()), W()) && of == old(of)
      ensures Caused(c, old(W()), old(tries), W(), tries) && Emptied(c, W(), tries, |old(tries)|)
      ensures Tidy(old(W()), W(), {})
      ensures reqs.Keys <= old(reqs.Keys)
      ensures pumpAgain ==> old(pumpAgain) || reqs.Keys < old(reqs.Keys)
      decreases 0, 7
    {
      ghost var w0, t0 := W(), tries;
      Shape(c, w0);
      MovedSelf(c, w0, 0);
      CausedSelf(c, w0, w0, t0);
      TidySelf(w0, w0);
      for t := 0 to c.N()
        invariant Ok() && pumping && Since(w0, W()) && of == w0.of && reqs.Keys <= w0.reqs.Keys
        invariant |waiting| == |links| == |full| == c.N()
        invariant forall s | 0 <= s < t :: QuietAt(c, W(), s)
        invariant Caused(c, w0, t0, W(), tries) && Tidy(w0, W(), {})
        invariant forall s | 0 <= s < t && waiting[s] != [] :: Excused(c, tries, |t0|, s)
        invariant pumpAgain ==> old(pumpAgain) || reqs.Keys < w0.reqs.Keys
      {
        ghost var w, t1 := W(), tries;
        TriesGrow(c, w0, t0, w, t1);
        PumpTarget(t);
        TriesGrow(c, w, t1, W(), tries);
        forall s | 0 <= s < t ensures QuietAt(c, W(), s) {
          QuietStep(c, w, W(), t, s);
        }
        forall s | 0 <= s <= t && waiting[s] != [] ensures Excused(c, tries, |t0|, s) {
          if s < t {
            SameElsewhere(c, w, W(), t, s);
            LongerTries(c, t1, tries, |t0|, |t0|, s);
          } else {
            LongerTries(c, tries, tries, |t1|, |t0|, s);
          }
        }
        MovedSince(c, w, W(), t);
        SinceOn(w0, w, W());
        CausedOn(c, w0, t0, w, t1, W(), tries);
        TidyOn(w0, w, W(), {});
      }
    }

    /** Hands waiting requests to connections.  Re-entered from a failing write, it only asks the
        running pump for one more round; a round is repeated only after it consumed a request. */
    method Pump()
      requires Ok()
      modifies this
      ensures Ok() && pumping == old(pumping)
      ensures old(pumping) ==> W() == old(W()) && tries == old(tries) && asked == old(asked) && pumpAgain
      ensures !old(pumping) ==> Calm(c, W()) && Since(old(W()), W()) && of == old(of)
      ensures Caused(c, old(W()), old(tries), W(), tries) && Tidy(old(W()), W(), {})
      ensures !old(pumping) ==> Emptied(c, W(), tries, |old(tries)|)
      decreases if pumping then 0 else 1, 1
    {
      CausedSelf(c, W(), W(), tries);
      TidySelf(W(), W());
      if pumping {
        pumpAgain := true;
        return;
      }
      ghost var w0, t0 := W(), tries;
      MovedSelf(c, w0, 0);
      pumping := true;
      var again := true;
      while again
        invariant Ok() && pumping && Since(w0, W()) && of == w0.of && (!again ==> Calm(c, W()))
        invariant Caused(c, w0, t0, W(), tries) && (!again ==> Emptied(c, W(), tries, |t0|))
        invariant Tidy(w0, W(), {})
        decreases reqs.Keys, again
      {
        ghost var w, t1 := W(), tries;
        TriesGrow(c, w0, t0, w, t1);
        pumpAgain := false;
        PumpOnce();
        SinceOn(w0, w, W());
        CausedOn(c, w0, t0, w, t1, W(), tries);
        EmptiedSince(c, W(), tries, |t1|, |t0|);
        TidyOn(w0, w, W(), {});
        again := pumpAgain;
      }
      pumping := false;
    }

    // ---- what the event loop calls ----

    /** A request for target t: refused by its protocol, turned away at a full queue, or queued. */
    method Dispatch(t: Target, refused: bool)
      requires Rest() && t < c.N()
      modifies this
      ensures Rest() && Since(old(W()), W()) && Answered(c, old(W()), old(tries), W(), tries, t, refused)
    {
      Shape(c, W());
      if refused || (c.wait && |waiting[t]| >= c.queueMax) {
        TurnAway(t, if refused then Refused else Unavailable);
      } else {
        Admit(t);
      }
    }

    method TurnAway(t: Target, how: Outcome)
      requires Rest() && t < c.N() && (how.Refused? || (how.Unavailable? && c.wait))
      modifies this
      ensures Rest() && Since(old(W()), W()) && of == old(of) + [t] && EndsAs(W(), |old(of)|, how)
    {
      ghost var w0 := W();
      TurnStep(c, w0, t, how);
      ended := ended[|of| := how];
      of := of + [t];
      AccountsStep(c, w0, W(), tries);
      FreeSince(w0, W());
    }

    method Admit(t: Target)
      requires Rest() && t < c.N() == |waiting| && (c.wait ==> |waiting[t]| < c.queueMax)
      modifies this
      ensures Rest() && Since(old(W()), W()) && of == old(of) + [t] && Emptied(c, W(), tries, |old(tries)|)
      ensures |old(of)| in handed || Unreached(tries, |old(tries)|, t) || Denied(tries, |old(tries)|, t)
    {
      ghost var w0, t0 := W(), tries;
      var timer := false;
      if c.wait {
        timer := c.env.timerMade(asked);
        asked := asked + 1;
      }
      ArriveStep(c, w0, t, timer);
      Enqueue(t, timer);
      ghost var w1 := W();
      CausedSelf(c, w0, w1, t0);
      Pump();
      SinceOn(w0, w1, W());
      CausedOn(c, w0, t0, w1, t0, W(), tries);
      Accounts(c, w0, t0, W(), tries);
      FreeSince(w0, W());
      ArrivedFresh(c, w0);
      if !Unreached(tries, |t0|, t) && !Denied(tries, |t0|, t) {
        IsHanded(c, w1, t0, W(), tries, |w0.of|);
      }
    }

    method Enqueue(t: Target, timer: bool)
      requires t < |waiting|
      modifies this`of, this`waiting, this`reqs
      ensures W() == Arrived(old(W()), t, timer)
    {
      var r := |of|;
      of := of + [t];
      waiting := waiting[t := waiting[t] + [r]];
      reqs := reqs[r := Request(true, timer, None)];
    }

    /** END_REQUEST: the request is over, the connection is idle and may take the next one. */
    method RequestDone(u: Up)
      requires Ok() && !pumping && u in ups
      modifies this
      ensures Ok() && !pumping && Calm(c, W()) && Since(old(W()), W()) && of == old(of)
      ensures EndsOn(old(W()), W(), u, Finished)
      ensures Caused(c, old(W()), old(tries), W(), tries) && Emptied(c, W(), tries, |old(tries)|)
      ensures u in ups ==> !Abandoned(ups[u])
    {
      ghost var w0, t0 := W(), tries;
      DoneStep(c, w0, u);
      DoneCaused(c, w0, u, t0);
      Conclude(u, Finished);
      ups := ups[u := ups[u].(current := None, busy := false)];
      ghost var w1 := W();
      assert w1 == Done(w0, u) && EndsOn(w0, w1, u, Finished);
      Pump();
      SinceOn(w0, w1, W());
      CausedOn(c, w0, t0, w1, t0, W(), tries);
      Stays(w0, w1, W(), u, Finished);
      if u in ups { StaysTaken(w1, W(), u); }
    }

    /** One END_REQUEST after the other, until the connection is dropped. */
    method Records(u: Up, ends: nat)
      requires Ok() && !pumping && Calm(c, W()) && u in ups && ups[u].active > 0 && !ups[u].dead
      modifies this
      ensures Ok() && !pumping && Calm(c, W()) && Since(old(W()), W()) && of == old(of)
      ensures ends > 0 ==> EndsOn(old(W()), W(), u, Finished) && Emptied(c, W(), tries, |old(tries)|)
      ensures ends > 0 ==> u in ups && !Abandoned(ups[u])
      ensures Caused(c, old(W()), old(tries), W(), tries) && (ends == 0 ==> W() == old(W()) && tries == old(tries))
    {
      ghost var w1, t1 := W(), tries;
      MovedSelf(c, w1, 0);
      CausedSelf(c, w1, w1, t1);
      var i := 0;
      while i < ends && !ups[u].dead
        invariant Ok() && !pumping && Calm(c, W()) && Since(w1, W()) && of == w1.of && u in ups
        invariant i <= ends
        invariant if i == 0 then W() == w1 && tries == t1
          else EndsOn(w1, W(), u, Finished) && Emptied(c, W(), tries, |t1|) && !Abandoned(ups[u])
        invariant Caused(c, w1, t1, W(), tries)
        decreases ends - i
      {
        ghost var w, t2 := W(), tries;
        TriesGrow(c, w1, t1, w, t2);
        RequestDone(u);
        SinceOn(w1, w, W());
        CausedOn(c, w1, t1, w, t2, W(), tries);
        EmptiedSince(c, W(), tries, |t2|, |t1|);
        StillHeld(w1, W(), u);
        Stays(w1, w, W(), u, Finished);
        i := i + 1;
      }
    }

    method Hold(u: Up)
      requires u in ups
      modifies this`ups
      ensures W() == Held(old(W()), u)
    {
      ups := ups[u := ups[u].(active := ups[u].active + 1)];
    }

    /** Bytes from the target that complete `ends` END_REQUEST records.  The struct is held meanwhile,
        so a drop during one of them defers the free to the end of this call. */
    method Receive(u: Up, ends: nat)
      requires Rest() && u in ups
      modifies this
      ensures Rest() && Since(old(W()), W()) && of == old(of)
      ensures ends > 0 ==> EndsOn(old(W()), W(), u, Finished) && Emptied(c, W(), tries, |old(tries)|)
      ensures ends > 0 && u in ups ==> !Abandoned(ups[u])
    {
      ghost var w0, t0 := W(), tries;
      LiveAtRest(c, w0, u);
      HoldStep(c, w0, u);
      Hold(u);
      Records(u, ends);
      ghost var w2 := W();
      ReturnStep(c, w0, w2, u);
      HeldEnds(w0, w2, u, Finished);
      Release(u);
      if ends > 0 {
        EmptiedSame(c, w2, W(), tries, |t0|);
        CausedFrom(c, w0, Held(w0, u), t0, w2, tries);
        CausedSelf(c, w2, W(), tries);
        CausedReturned(c, w0, t0, w2, W(), tries);
        Accounts(c, w0, t0, W(), tries);
      } else {
        AccountsStep(c, w0, W(), t0);
      }
    }

    /** The caller is done with the struct; the last one frees a dead struct. */
    method Release(u: Up)
      requires u in ups && ups[u].active > 0
      modifies this`ups, this`freed
      ensures W() == Returned(old(W()), u)
    {
      ghost var m := ups;
      ups := ups[u := ups[u].(active := ups[u].active - 1)];
      if ups[u].dead && ups[u].active == 0 {
        ups := ups - {u};
        freed := freed + {u};
        assert ups == m - {u};
      }
    }

    /** A gentle step ends at rest. */
    lemma Rests(w0: World)
      requires Free(w0) && Calm(c, w0) && Gentle(c, w0, W()) && !pumping && Asked(c, tries)
      requires Accountable(c, W(), tries)
      ensures Rest() && Since(w0, W())
    {
      FreeSince(w0, W());
    }

    /** An idle connection timed out. */
    method IdleExpired(u: Up)
      requires Rest() && u in ups
      modifies this
      ensures Rest() && Since(old(W()), W()) && of == old(of) && (!old(ups[u].busy) ==> u in freed)
    {
      ghost var w0 := W();
      MovedSelf(c, w0, 0);
      NoneDead(w0, u);
      BusyWithRequest(c, w0, u);
      if !ups[u].busy {
        DropStep(c, w0, u);
        Drop(u);
        AccountsSame(c, w0, W(), tries);
        Rests(w0);
      }
    }

    /** The wait timer of a queued request fired. */
    method WaitExpired(r: Req)
      requires Rest() && r in reqs && reqs[r].queued
      modifies this
      ensures Rest() && Since(old(W()), W()) && of == old(of) && EndsAs(W(), r, Unavailable)
    {
      ghost var w0 := W();
      LeaveStep(c, w0, r, Unavailable);
      QueuedExcused(c, w0, tries, r);
      LeftAccounts(c, w0, r, Unavailable, tries);
      Reject(r, Unavailable);
      Rests(w0);
    }

    /** The client of a live request closed its connection; a target at work on it is left to finish. */
    method ClientClosed(r: Req)
      requires Rest() && r in reqs
      modifies this
      ensures Rest() && Since(old(W()), W()) && of == old(of) && EndsAs(W(), r, ClientGone)
      ensures links == old(links) && freed == old(freed) && ups.Keys == old(ups.Keys)
    {
      ghost var w0 := W();
      if reqs[r].queued {
        LeaveStep(c, w0, r, ClientGone);
        LeftAccounts(c, w0, r, ClientGone, tries);
        Reject(r, ClientGone);
      } else {
        OnItsConnection(c, w0, r);
        AbandonStep(c, w0, reqs[r].up.value);
        ArrivedAll(c, w0, r);
        Conclude(reqs[r].up.value, ClientGone);
        AccountsStep(c, w0, W(), tries);
      }
      Rests(w0);
    }

    /** The connection failed, or its deadline passed. */
    method Failure(u: Up, how: Outcome)
      requires Rest() && u in ups && (how.Lost? || how.TimedOut?)
      modifies this
      ensures Rest() && Since(old(W()), W()) && of == old(of) && Gone(old(W()), W(), u, how)
      ensures Emptied(c, W(), tries, |old(tries)|)
    {
      ghost var w0, t0 := W(), tries;
      NoneDead(w0, u);
      BusyWithRequest(c, w0, u);
      Fail(u, how);
      FreeSince(w0, W());
      Accounts(c, w0, t0, W(), tries);
    }

    /** The connect has succeeded. */
    method Connects(u: Up)
      requires Rest() && u in ups
      modifies this`ups
      ensures Rest() && Since(old(W()), W()) && W() == Flagged(old(W()), u, old(ups[u]).(connecting := false))
    {
      ghost var w0 := W();
      BusyWithRequest(c, w0, u);
      FlagStep(c, w0, u, ups[u].(connecting := false));
      ups := ups[u := ups[u].(connecting := false)];
      AccountsSame(c, w0, W(), tries);
      Rests(w0);
    }

    /** The socket is writable: the connect ended, and pending bytes are written. */
    method Writable(u: Up, connectFailed: bool)
      requires Rest() && u in ups
      modifies this
      ensures Rest() && Since(old(W()), W()) && of == old(of)
      ensures old(ups[u].connecting) && connectFailed ==>
        Gone(old(W()), W(), u, Lost) && Emptied(c, W(), tries, |old(tries)|)
      ensures !(old(ups[u].connecting) && connectFailed) && c.env.writeFails(old(asked)) ==>
        Gone(old(W()), W(), u, Lost) && Emptied(c, W(), tries, |old(tries)|)
      ensures !(old(ups[u].connecting) && connectFailed) && !c.env.writeFails(old(asked)) ==>
        W() == Flagged(old(W()), u, old(ups[u]).(connecting := false))
    {
      ghost var w0 := W();
      MovedSelf(c, w0, 0);
      assert ups[u := ups[u]] == ups;
      if ups[u].connecting {
        if connectFailed {
          Failure(u, Lost);
          return;
        }
        Connects(u);
      }
      ghost var w1 := W();
      Flush(u);
      SinceOn(w0, w1, W());
    }

    /** Writes what is pending; a hard error fails the connection. */
    method Flush(u: Up)
      requires Rest() && u in ups
      modifies this
      ensures Rest() && Since(old(W()), W()) && of == old(of)
      ensures if c.env.writeFails(old(asked)) then Gone(old(W()), W(), u, Lost) && Emptied(c, W(), tries, |old(tries)|)
        else W() == old(W()) && tries == old(tries)
    {
      MovedSelf(c, W(), 0);
      var fails := c.env.writeFails(asked);
      asked := asked + 1;
      if fails {
        Failure(u, Lost);
      }
    }

    /** Drops the i-th connection to the target, which is idle. */
    method GiveBack(t: Target, i: nat)
      requires Rest() && t < c.N() == |links| && i < |links[t]| && InUse(links[t][..i], ups)
      requires links[t][i] in ups && !ups[links[t][i]].busy && ups[links[t][i]].t == t
      modifies this`links, this`slots, this`ups, this`freed
      ensures Rest() && Since(old(W()), W()) && Tidy(old(W()), W(), {}) && |links| == |old(links)|
      ensures |links[t]| < |old(links[t])| && i <= |links[t]| && InUse(links[t][..i], ups)
    {
      ghost var w := W();
      var u := links[t][i];
      NoneDead(w, u);
      BusyWithRequest(c, w, u);
      DropStep(c, w, u);
      DroppedKeepsFront(c, w, t, i);
      DroppedTidy(w, u);
      Drop(u);
      AccountsSame(c, w, W(), tries);
      Rests(w);
    }

    /** A sibling asked for connections: the idle ones to this target are dropped. */
    method TickTarget(t: Target)
      requires Rest() && t < c.N()
      modifies this
      ensures Rest() && Since(old(W()), W()) && of == old(of)
      ensures tries == old(tries) && (!c.env.reclaimMoved(old(asked)) ==> W() == old(W()))
      ensures c.env.reclaimMoved(old(asked)) ==> t < |links| && InUse(links[t], ups)
      ensures asked == old(asked) + 1 && Tidy(old(W()), W(), {})
    {
      ghost var w0 := W();
      MovedSelf(c, w0, 0);
      TidySelf(w0, w0);
      var moved := c.env.reclaimMoved(asked);
      asked := asked + 1;
      if !moved {
        return;
      }
      Shape(c, W());
      var i := 0;
      while i < |links[t]|
        invariant Rest() && Since(w0, W()) && of == w0.of && |links| == c.N()
        invariant i <= |links[t]| && InUse(links[t][..i], ups) && tries == old(tries)
        invariant asked == old(asked) + 1 && Tidy(w0, W(), {})
        decreases |links[t]| - i
      {
        ghost var w := W();
        ListsLive(c, w, t);
        NoneDead(w, links[t][i]);
        var u := links[t][i];
        if !ups[u].busy && !ups[u].connecting && ups[u].active == 0 {
          GiveBack(t, i);
          TidyOn(w0, w, W(), {});
          SinceOn(w0, w, W());
        } else {
          assert links[t][..i + 1] == links[t][..i] + [u];
          i := i + 1;
        }
      }
      assert links[t][..i] == links[t];
    }

    /** The periodic look at the siblings' requests, and another try at the own queues. */
    method OnTick()
      requires Rest()
      modifies this
      ensures Rest() && Since(old(W()), W()) && of == old(of) && Emptied(c, W(), tries, |old(tries)|)
      ensures GivenBack(c, old(asked), W())
    {
      ghost var w0, t0, n := W(), tries, asked;
      MovedSelf(c, w0, 0);
      GivenNone(c, n, w0);
      for t := 0 to c.N()
        invariant Rest() && Since(w0, W()) && of == w0.of && tries == t0 && asked == n + t
        invariant GivenTo(c, n, W(), t)
      {
        ghost var w := W();
        TickTarget(t);
        SinceOn(w0, w, W());
        Shape(c, W());
        if c.env.reclaimMoved(n + t) { InUseNoSpare(c, W(), t); }
        GivenMore(c, n, w, W(), t);
      }
      ghost var w1 := W();
      Pump();
      GivenStays(c, n, w1, W(), c.N());
      SinceOn(w0, w1, W());
      FreeSince(w0, W());
      Accounts(c, w1, t0, W(), tries);
    }

    /** One event; an event for a struct that is gone cannot be delivered. */
    method Handle(e: Event)
      requires Rest()
      modifies this
      ensures Rest() && Since(old(W()), W()) && Handled(c, old(asked), old(W()), old(tries), W(), tries, e)
    {
      MovedSelf(c, W(), 0);
      match e
      case Arrives(t, refused) => if t < c.N() { Dispatch(t, refused); }
      case Data(u, ends) => if u in ups { Receive(u, ends); }
      case Failed(u) => if u in ups { Failure(u, Lost); }
      case Writable(u, connectFailed) => if u in ups { Writable(u, connectFailed); }
      case Idle(u) => if u in ups { IdleExpired(u); }
      case Deadline(u) => if u in ups { Failure(u, TimedOut); }
      case WaitOver(r) => if r in reqs && reqs[r].queued && reqs[r].timer { WaitExpired(r); }
      case ClientLeft(r) => if r in reqs { ClientClosed(r); }
      case Tick => OnTick();
    }

    /** Any run of the event loop, against any environment. */
    method Run(events: seq<Event>)
      requires Rest()
      modifies this
      ensures Rest() && Since(old(W()), W())
    {
      ghost var w0 := W();
      MovedSelf(c, w0, 0);
      for i := 0 to |events|
        invariant Rest() && Since(w0, W())
      {
        ghost var w := W();
        Handle(events[i]);
        SinceOn(w0, w, W());
      }
    }
  }

  // ---- what Rest says ----

  /** Between two events, in every run: a request that ended "unreachable" had an attempt that could not reach
      its target, one that ended "unavailable" under the default policy was denied a connection, and so was
      every target with a queue. */
  lemma AccountMeans(c: Config, w: World, tries: seq<Try>)
    requires Sound(c, w) && Accountable(c, w, tries)
    ensures forall r: Req | r in w.ended && w.ended[r].Unreachable? ::
      r < |w.of| && exists i :: 0 <= i < |tries| && tries[i] == Try(w.of[r], CannotReach)
    ensures !c.wait ==> forall r: Req | r in w.ended && w.ended[r].Unavailable? ::
      && r < |w.of|
      && exists i :: 0 <= i < |tries| && (tries[i] == Try(w.of[r], NoSlot) || tries[i] == Try(w.of[r], NotNow))
    ensures forall t | 0 <= t < |w.waiting| && w.waiting[t] != [] ::
      exists i :: 0 <= i < |tries| && tries[i].t == t && !tries[i].answer.Now? && !tries[i].answer.Underway?
  {
    assert Look(0);
    forall t | 0 <= t < |w.waiting| && w.waiting[t] != []
      ensures exists i :: 0 <= i < |tries| && tries[i].t == t && !tries[i].answer.Now? && !tries[i].answer.Underway?
    {
      FailedFrom(c, tries, 0, t);
    }
  }

  lemma FailedFrom(c: Config, tries: seq<Try>, from: nat, t: Target)
    requires Excused(c, tries, from, t) || Unreached(tries, from, t)
    ensures exists i :: from <= i < |tries| && tries[i].t == t && !tries[i].answer.Now? && !tries[i].answer.Underway?
  {
    if Denied(tries, from, t) {
      var i :| from <= i < |tries| && (tries[i] == Try(t, NoSlot) || tries[i] == Try(t, NotNow));
    } else {
      var i :| from <= i < |tries| && tries[i] == Try(t, CannotReach);
    }
  }

  /** When every connection that is asked for opens: no queue is left between two events, no request ends for
      want of a connection, and every request was handed over unless it was refused or its client left. */
  lemma AlwaysServed(c: Config, w: World, tries: seq<Try>)
    requires Sound(c, w) && Accountable(c, w, tries) && Asked(c, tries)
    requires forall n: nat :: c.env.connect(n).Now? || c.env.connect(n).Underway?
    ensures forall t | 0 <= t < |w.waiting| :: w.waiting[t] == []
    ensures forall r: Req | r < |w.of| && r !in w.handed ::
      r in w.ended && (w.ended[r].Refused? || w.ended[r].ClientGone? || (c.wait && w.ended[r].Unavailable?))
  {
    assert Look(0);
    forall t: nat ensures !Denied(tries, 0, t) && !Unreached(tries, 0, t) { AllOpened(c, tries, 0, t); }
  }

  lemma AllOpened(c: Config, tries: seq<Try>, from: nat, t: Target)
    requires Asked(c, tries) && forall n: nat :: c.env.connect(n).Now? || c.env.connect(n).Underway?
    ensures !Denied(tries, from, t) && !Unreached(tries, from, t)
  {
    assert Look(0);
    forall i | 0 <= i < |tries| ensures tries[i].answer.Now? || tries[i].answer.Underway? {
      var k: nat :| tries[i].answer == c.env.connect(k);
    }
  }

  /** And the request that has just arrived is on its way when the call returns, with every queue empty. */
  lemma ArrivalServed(c: Config, v: World, tv: seq<Try>, w: World, tw: seq<Try>, t: Target)
    requires t < c.N() && t < |v.waiting| && Answered(c, v, tv, w, tw, t, false) && Asked(c, tw)
    requires c.wait ==> |v.waiting[t]| < c.queueMax
    requires forall n: nat :: c.env.connect(n).Now? || c.env.connect(n).Underway?
    ensures |v.of| in w.handed && forall s | 0 <= s < |w.waiting| :: w.waiting[s] == []
  {
    assert Look(0);
    forall s: nat ensures !Denied(tw, |tv|, s) && !Unreached(tw, |tv|, s) { AllOpened(c, tw, |tv|, s); }
  }

  /** Between two events, in every run: the state is sound, every struct is linked, and a target with
      requests in its queue has no idle connection.  Under the default policy they are at most one per
      worker, each with its timer, and siblings held part of the budget when last asked; under the wait
      policy they are within the cap, each with its timer unless one could not be made. */
  lemma RestMeans(c: Config, w: World)
    requires Sound(c, w) && Calm(c, w) && Free(w)
    ensures Inv(c, w, {})
    ensures forall u: Up | u in w.ups :: !w.ups[u].dead && w.ups[u].t < c.N() && u in w.links[w.ups[u].t]
    ensures forall t | 0 <= t < c.N() && w.waiting[t] != [] ::
      && (forall i | 0 <= i < |w.links[t]| :: w.ups[w.links[t][i]].busy)
      && (if c.wait then |w.waiting[t]| <= c.queueMax else |w.waiting[t]| <= c.maxUp[t] && w.full[t])
    ensures !c.wait || (forall n :: c.env.timerMade(n)) ==>
      forall r: Req | r in w.reqs && w.reqs[r].queued :: w.reqs[r].timer
  {
    assert Look(0);
    forall t | 0 <= t < c.N() && w.waiting[t] != []
      ensures (forall i | 0 <= i < |w.links[t]| :: w.ups[w.links[t][i]].busy)
           && (if c.wait then |w.waiting[t]| <= c.queueMax else |w.waiting[t]| <= c.maxUp[t] && w.full[t])
    {
      assert QuietAt(c, w, t) && QueueOk(c, w.of, w.reqs, t, w.waiting[t]) && LinkOk(w.ups, t, w.links[t]);
    }
    if !c.wait {
      forall r: Req | r in w.reqs && w.reqs[r].queued ensures w.reqs[r].timer {
        var t := w.of[r];
        assert QuietAt(c, w, t);
        var i :| 0 <= i < |w.waiting[t]| && w.waiting[t][i] == r;
      }
    }
  }
}
