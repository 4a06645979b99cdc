/**
 The gateway's dispatch pump: every target has a queue of requests and a list of upstream
 connections, and the pump hands queued requests to idle or newly opened connections.
 A hand-over can fail synchronously, which ends the request, drops the connection and
 re-enters the pump.

 Structs are entries of a map, so a use after free would be a missing key.
 */
module PumpState {
  import opened Shared

  type Target = nat
  type Req = nat
  type Up = nat

  /** One connection struct. */
  datatype Upstream = Upstream(t: Target, busy: bool, current: Option<Req>, connecting: bool, active: nat, dead: bool)

  /** One request struct; its target is looked up in `of`. */
  datatype Request = Request(queued: bool, timer: bool, up: Option<Up>)

  /** How a request left: its reply was finished, its connection was lost, its target could not be
      reached, the pool was full, the target was silent for too long, the client left, or it never
      was a request the target's protocol could carry. */
  datatype Outcome = Finished | Lost | Unreachable | Unavailable | TimedOut | ClientGone | Refused

  datatype Connected = Now | Underway | NoSlot | NotNow | CannotReach

  /** The answers of the operating system and of the sibling processes to the n-th question. */
  datatype Env = Env(connect: nat -> Connected, writeFails: nat -> bool, siblingsHold: nat -> bool,
                     timerMade: nat -> bool, reclaimMoved: nat -> bool)

  datatype Config = Config(maxUp: seq<nat>, wait: bool, queueMax: nat, env: Env) {
    function N(): nat { |maxUp| }
  }

  /** `of` names the target of every request that ever arrived, in order of arrival; `handed` lists
      the requests handed to a connection, in order; `slots` is what this process holds of each
      target's budget; `full` is the last answer to whether siblings hold part of the budget. */
  datatype World = World(of: seq<Target>, waiting: seq<seq<Req>>, reqs: map<Req, Request>, ended: map<Req, Outcome>,
                         handed: seq<Req>, links: seq<seq<Up>>, ups: map<Up, Upstream>, freed: set<Up>,
                         nextUp: nat, slots: seq<nat>, full: seq<bool>)

  // ---- what every step keeps ----

  predicate Increasing(s: seq<nat>) { forall i, j | 0 <= i < j < |s| :: s[i] < s[j] }

  /** Every request that arrived is live or has ended, never both. */
  predicate Accounted(of: seq<Target>, reqs: map<Req, Request>, ended: map<Req, Outcome>) {
    && (forall r: Req | r in reqs :: r < |of| && r !in ended)
    && (forall r: Req | r in ended :: r < |of|)
    && (forall r: Req | r < |of| :: r in reqs || r in ended)
  }

  /** The queue of target t holds queued requests for t, in order of arrival, within the cap. */
  predicate QueueOk(c: Config, of: seq<Target>, reqs: map<Req, Request>, t: Target, queue: seq<Req>) {
    && Increasing(queue)
    && (forall i | 0 <= i < |queue| ::
          queue[i] in reqs && reqs[queue[i]].queued && queue[i] < |of| && of[queue[i]] == t)
    && (c.wait ==> |queue| <= c.queueMax)
  }

  predicate QueuesOk(c: Config, of: seq<Target>, waiting: seq<seq<Req>>, reqs: map<Req, Request>) {
    && |waiting| == c.N()
    && (forall r | 0 <= r < |of| :: of[r] < c.N())
    && (forall t | 0 <= t < c.N() :: QueueOk(c, of, reqs, t, waiting[t]))
    && (forall r: Req | r in reqs && reqs[r].queued :: r < |of| && r in waiting[of[r]] && reqs[r].up.None?)
  }

  /** The requests that are nowhere else are in the hand of the running handler. */
  predicate HandOk(reqs: map<Req, Request>, hand: set<Req>) {
    && (forall r: Req | r in hand :: r in reqs)
    && (forall r: Req | r in reqs :: r in hand <==> !reqs[r].queued && reqs[r].up.None?)
  }

  predicate LinkOk(ups: map<Up, Upstream>, t: Target, list: seq<Up>) {
    && Increasing(list)
    && (forall i | 0 <= i < |list| :: list[i] in ups && ups[list[i]].t == t && !ups[list[i]].dead)
  }

  /** A target's slots are the connections on its list. */
  predicate ListsOk(c: Config, links: seq<seq<Up>>, slots: seq<nat>, ups: map<Up, Upstream>) {
    && |links| == |slots| == c.N()
    && (forall t | 0 <= t < c.N() :: LinkOk(ups, t, links[t]) && |links[t]| == slots[t])
  }

  /** A struct that is not dead is on its target's list; a dead one is still in use. */
  predicate Listed(links: seq<seq<Up>>, ups: map<Up, Upstream>) {
    && (forall u: Up | u in ups :: ups[u].t < |links|)
    && (forall u: Up | u in ups :: if ups[u].dead then ups[u].active > 0 else u in links[ups[u].t])
  }

  /** Every struct ever made is live or freed. */
  predicate MadeOk(ups: map<Up, Upstream>, freed: set<Up>, nextUp: nat) {
    && (forall u: Up | u in ups :: u < nextUp && u !in freed)
    && (forall u: Up | u in freed :: u < nextUp)
    && (forall u: Up | u < nextUp :: u in ups || u in freed)
  }

  /** The target lists hold exactly the structs that are not dead. */
  predicate LinksOk(c: Config, links: seq<seq<Up>>, slots: seq<nat>, ups: map<Up, Upstream>, freed: set<Up>,
                    nextUp: nat) {
    ListsOk(c, links, slots, ups) && Listed(links, ups) && MadeOk(ups, freed, nextUp)
  }

  /** A request and the connection it is on name each other; only a linked, busy connection has one. */
  predicate PairsOk(reqs: map<Req, Request>, ups: map<Up, Upstream>) {
    && (forall r: Req | r in reqs && reqs[r].up.Some? ::
        reqs[r].up.value in ups && ups[reqs[r].up.value].current == Some(r))
    && (forall u: Up | u in ups && ups[u].current.Some? ::
          ups[u].busy && !ups[u].dead && ups[u].current.value in reqs && reqs[ups[u].current.value].up == Some(u))
  }

  /** What ends a request where it waits, and what ends it on a connection; the client may leave in both. */
  predicate Unserved(how: Outcome) { how.Unreachable? || how.Unavailable? || how.Refused? || how.ClientGone? }

  predicate Served(how: Outcome) { how.Finished? || how.Lost? || how.TimedOut? || how.ClientGone? }

  /** A request on a connection was handed over, and its outcome tells whether it was. */
  predicate Traced(reqs: map<Req, Request>, ended: map<Req, Outcome>, handed: seq<Req>) {
    && (forall r: Req | r in reqs && reqs[r].up.Some? :: r in handed)
    && (forall r: Req | r in ended && r in handed :: Served(ended[r]))
    && (forall r: Req | r in ended && r !in handed :: Unserved(ended[r]))
  }

  /** Per target, requests are handed over in order of arrival, and ahead of what still waits. */
  predicate InOrder(of: seq<Target>, waiting: seq<seq<Req>>, handed: seq<Req>) {
    && (forall i | 0 <= i < |handed| :: handed[i] < |of| && of[handed[i]] < |waiting|)
    && (forall i, j | 0 <= i < j < |handed| && of[handed[i]] == of[handed[j]] :: handed[i] < handed[j])
    && (forall i, k | 0 <= i < |handed| && 0 <= k < |waiting[of[handed[i]]]| :: handed[i] < waiting[of[handed[i]]][k])
  }

  /** Under the wait policy every queued request has its timer, unless one could not be made. */
  ghost predicate TimersOk(c: Config, reqs: map<Req, Request>) {
    c.wait && (forall n :: c.env.timerMade(n)) ==> forall r: Req | r in reqs && reqs[r].queued :: reqs[r].timer
  }

  ghost predicate Inv(c: Config, w: World, hand: set<Req>) {
    && |w.full| == c.N()
    && Accounted(w.of, w.reqs, w.ended)
    && QueuesOk(c, w.of, w.waiting, w.reqs)
    && HandOk(w.reqs, hand)
    && LinksOk(c, w.links, w.slots, w.ups, w.freed, w.nextUp)
    && PairsOk(w.reqs, w.ups)
    && InOrder(w.of, w.waiting, w.handed)
    && Traced(w.reqs, w.ended, w.handed)
    && TimersOk(c, w.reqs)
  }

  // ---- the edits of the struct lists ----

  function Without(s: seq<nat>, x: nat): seq<nat> {
    if s == [] then [] else if s[0] == x then s[1..] else [s[0]] + Without(s[1..], x)
  }

  lemma {:induction false} WithoutSpec(s: seq<nat>, x: nat)
    requires Increasing(s)
    ensures Increasing(Without(s, x))
    ensures forall y :: y in Without(s, x) <==> y in s && y != x
    ensures |Without(s, x)| == |s| - (if x in s then 1 else 0)
    decreases |s|
  {
    if s != [] {
      var rest := s[1..];
      assert s == [s[0]] + rest;
      WithoutSpec(rest, x);
      if s[0] != x {
        forall j | 0 <= j < |Without(rest, x)| ensures s[0] < Without(rest, x)[j] {
          assert Without(rest, x)[j] in rest;
        }
      }
    }
  }

  lemma {:induction false} WithoutAt(s: seq<nat>, k: nat)
    requires Increasing(s) && k < |s|
    ensures Without(s, s[k]) == s[..k] + s[k + 1..]
    decreases |s|
  {
    if k > 0 {
      WithoutAt(s[1..], k - 1);
      assert s[1..][k - 1] == s[k];
      assert s[..k] + s[k + 1..] == [s[0]] + (s[1..][..k - 1] + s[1..][k..]);
    }
  }

  // ---- lemmas about one part of the state ----

  /** Queues only look at which requests are queued. */
  lemma SameQueues(c: Config, of: seq<Target>, waiting: seq<seq<Req>>, reqs: map<Req, Request>,
                   other: map<Req, Request>)
    requires QueuesOk(c, of, waiting, reqs)
    requires forall r: Req | r in reqs && reqs[r].queued :: r in other && other[r].queued
    requires forall r: Req | r in other && other[r].queued :: r in reqs && reqs[r].queued && other[r].up == reqs[r].up
    ensures QueuesOk(c, of, waiting, other)
  {
    forall t | 0 <= t < c.N() ensures QueueOk(c, of, other, t, waiting[t]) {
      assert QueueOk(c, of, reqs, t, waiting[t]);
    }
  }

  /** Lists only look at each struct's target and at whether it is dead. */
  lemma SameLinks(c: Config, w: World, u: Up, p: Upstream)
    requires LinksOk(c, w.links, w.slots, w.ups, w.freed, w.nextUp) && u in w.ups
    requires p.t == w.ups[u].t && p.dead == w.ups[u].dead && (p.dead ==> p.active > 0)
    ensures LinksOk(c, w.links, w.slots, w.ups[u := p], w.freed, w.nextUp)
  {
    forall t | 0 <= t < c.N() ensures LinkOk(w.ups[u := p], t, w.links[t]) { assert LinkOk(w.ups, t, w.links[t]); }
  }

  lemma ShorterQueue(c: Config, of: seq<Target>, waiting: seq<seq<Req>>, reqs: map<Req, Request>, r: Req)
    requires QueuesOk(c, of, waiting, reqs) && r in reqs && reqs[r].queued
    ensures QueuesOk(c, of, waiting[of[r] := Without(waiting[of[r]], r)], reqs[r := reqs[r].(queued := false)])
  {
    var t0 := of[r];
    var less, other := waiting[t0 := Without(waiting[t0], r)], reqs[r := reqs[r].(queued := false)];
    assert QueueOk(c, of, reqs, t0, waiting[t0]);
    WithoutSpec(waiting[t0], r);
    forall t | 0 <= t < c.N() ensures QueueOk(c, of, other, t, less[t]) {
      assert QueueOk(c, of, reqs, t, waiting[t]);
      if t == t0 {
        forall i | 0 <= i < |less[t]|
          ensures var x := less[t][i]; x in other && other[x].queued && x < |of| && of[x] == t
        {
          assert less[t][i] in waiting[t];
        }
      }
    }
  }

  lemma ShorterOrder(of: seq<Target>, waiting: seq<seq<Req>>, handed: seq<Req>, t: Target, r: Req)
    requires InOrder(of, waiting, handed) && t < |waiting| && Increasing(waiting[t])
    ensures InOrder(of, waiting[t := Without(waiting[t], r)], handed)
  {
    var less := waiting[t := Without(waiting[t], r)];
    WithoutSpec(waiting[t], r);
    forall i, k | 0 <= i < |handed| && 0 <= k < |less[of[handed[i]]]| ensures handed[i] < less[of[handed[i]]][k] {
      assert less[of[handed[i]]][k] in waiting[of[handed[i]]];
    }
  }

  lemma FewerRequests(c: Config, of: seq<Target>, waiting: seq<seq<Req>>, reqs: map<Req, Request>, r: Req)
    requires QueuesOk(c, of, waiting, reqs) && r in reqs && !reqs[r].queued
    ensures QueuesOk(c, of, waiting, reqs - {r})
  {
    SameQueues(c, of, waiting, reqs, reqs - {r});
  }

  lemma ShorterList(ups: map<Up, Upstream>, t: Target, list: seq<Up>, u: Up, other: map<Up, Upstream>)
    requires LinkOk(ups, t, list) && forall x: Up | x in ups && x != u :: x in other && other[x] == ups[x]
    ensures LinkOk(other, t, Without(list, u))
  {
    WithoutSpec(list, u);
    forall i | 0 <= i < |Without(list, u)|
      ensures var x := Without(list, u)[i]; x in other && other[x].t == t && !other[x].dead
    {
      assert Without(list, u)[i] in list;
    }
  }

  /** A target's list without one of its connections: its slots are still its connections. */
  lemma Unlinked(c: Config, links: seq<seq<Up>>, slots: seq<nat>, ups: map<Up, Upstream>, u: Up,
                 other: map<Up, Upstream>)
    requires ListsOk(c, links, slots, ups) && u in ups && ups[u].t < c.N() && u in links[ups[u].t]
    requires forall x: Up | x in ups && x != u :: x in other && other[x] == ups[x]
    ensures var t := ups[u].t;
      slots[t] > 0 && ListsOk(c, links[t := Without(links[t], u)], slots[t := slots[t] - 1], other)
  {
    var t0 := ups[u].t;
    ShorterList(ups, t0, links[t0], u, other);
    WithoutSpec(links[t0], u);
    forall t | 0 <= t < c.N() && t != t0 ensures LinkOk(other, t, links[t]) { assert LinkOk(ups, t, links[t]); }
  }

  /** The others stay on their lists. */
  lemma StillListed(links: seq<seq<Up>>, ups: map<Up, Upstream>, u: Up, other: map<Up, Upstream>)
    requires Listed(links, ups) && u in ups && !ups[u].dead && Increasing(links[ups[u].t])
    requires forall x: Up | x in other && x != u :: x in ups && other[x] == ups[x]
    requires u in other ==> other[u].t == ups[u].t && other[u].dead && other[u].active > 0
    ensures var t := ups[u].t; Listed(links[t := Without(links[t], u)], other)
  {
    WithoutSpec(links[ups[u].t], u);
  }

  lemma FreedAndUnlinked(c: Config, w: World, u: Up)
    requires LinksOk(c, w.links, w.slots, w.ups, w.freed, w.nextUp) && u in w.ups && !w.ups[u].dead
    ensures var t := w.ups[u].t; t < |w.links| == |w.slots| && w.slots[t] > 0
    ensures var t := w.ups[u].t;
      LinksOk(c, w.links[t := Without(w.links[t], u)], w.slots[t := w.slots[t] - 1], w.ups - {u}, w.freed + {u},
              w.nextUp)
  {
    assert LinkOk(w.ups, w.ups[u].t, w.links[w.ups[u].t]);
    Unlinked(c, w.links, w.slots, w.ups, u, w.ups - {u});
    StillListed(w.links, w.ups, u, w.ups - {u});
    FreedMade(w.ups, w.freed, w.nextUp, u);
  }

  lemma FreedMade(ups: map<Up, Upstream>, freed: set<Up>, nextUp: nat, u: Up)
    requires MadeOk(ups, freed, nextUp) && u in ups
    ensures MadeOk(ups - {u}, freed + {u}, nextUp)
  {
  }

  lemma DeadAndUnlinked(c: Config, w: World, u: Up)
    requires LinksOk(c, w.links, w.slots, w.ups, w.freed, w.nextUp) && u in w.ups && !w.ups[u].dead
    requires w.ups[u].active > 0
    ensures var t := w.ups[u].t; t < |w.links| == |w.slots| && w.slots[t] > 0
    ensures var t := w.ups[u].t;
      LinksOk(c, w.links[t := Without(w.links[t], u)], w.slots[t := w.slots[t] - 1],
              w.ups[u := w.ups[u].(dead := true)], w.freed, w.nextUp)
  {
    var other := w.ups[u := w.ups[u].(dead := true)];
    assert LinkOk(w.ups, w.ups[u].t, w.links[w.ups[u].t]);
    Unlinked(c, w.links, w.slots, w.ups, u, other);
    StillListed(w.links, w.ups, u, other);
    assert MadeOk(other, w.freed, w.nextUp);
  }

  lemma MoreLinks(c: Config, w: World, t: Target, connecting: bool)
    requires LinksOk(c, w.links, w.slots, w.ups, w.freed, w.nextUp) && t < c.N()
    ensures var v := Opened(w, t, connecting); LinksOk(c, v.links, v.slots, v.ups, v.freed, v.nextUp)
  {
    var v := Opened(w, t, connecting);
    forall s | 0 <= s < c.N() ensures LinkOk(v.ups, s, v.links[s]) && |v.links[s]| == v.slots[s] {
      assert LinkOk(w.ups, s, w.links[s]);
    }
  }

  lemma FreedLinks(c: Config, w: World, u: Up)
    requires LinksOk(c, w.links, w.slots, w.ups, w.freed, w.nextUp) && u in w.ups && w.ups[u].dead
    ensures LinksOk(c, w.links, w.slots, w.ups - {u}, w.freed + {u}, w.nextUp)
  {
    forall t | 0 <= t < c.N() ensures LinkOk(w.ups - {u}, t, w.links[t]) { assert LinkOk(w.ups, t, w.links[t]); }
  }

  lemma LongerQueue(c: Config, of: seq<Target>, waiting: seq<seq<Req>>, reqs: map<Req, Request>, t: Target, timer: bool)
    requires QueuesOk(c, of, waiting, reqs) && t < c.N() && (c.wait ==> |waiting[t]| < c.queueMax)
    requires forall r: Req | r in reqs :: r < |of|
    ensures QueuesOk(c, of + [t], waiting[t := waiting[t] + [|of|]], reqs[|of| := Request(true, timer, None)])
  {
    var more, other := waiting[t := waiting[t] + [|of|]], reqs[|of| := Request(true, timer, None)];
    forall s | 0 <= s < c.N() ensures QueueOk(c, of + [t], other, s, more[s]) {
      assert QueueOk(c, of, reqs, s, waiting[s]);
    }
    forall r: Req | r in other && other[r].queued
        ensures r < |of + [t]| && r in more[(of + [t])[r]] && other[r].up.None? {
      if r == |of| { assert more[t][|waiting[t]|] == r; }
    }
  }

  lemma LongerOf(c: Config, of: seq<Target>, waiting: seq<seq<Req>>, reqs: map<Req, Request>, t: Target)
    requires QueuesOk(c, of, waiting, reqs) && t < c.N()
    ensures QueuesOk(c, of + [t], waiting, reqs)
  {
    forall s | 0 <= s < c.N() ensures QueueOk(c, of + [t], reqs, s, waiting[s]) {
      assert QueueOk(c, of, reqs, s, waiting[s]);
    }
  }

  lemma LongerOrder(of: seq<Target>, waiting: seq<seq<Req>>, handed: seq<Req>, t: Target)
    requires InOrder(of, waiting, handed) && t < |waiting|
    ensures InOrder(of + [t], waiting, handed)
    ensures InOrder(of + [t], waiting[t := waiting[t] + [|of|]], handed)
  {
    assert forall i | 0 <= i < |handed| :: (of + [t])[handed[i]] == of[handed[i]];
  }

  // ---- the edits ----

  /** TAILQ_REMOVE from the target's queue. */
  function Unqueued(w: World, r: Req): World
    requires r in w.reqs && r < |w.of| && w.of[r] < |w.waiting|
  {
    var t := w.of[r];
    w.(waiting := w.waiting[t := Without(w.waiting[t], r)], reqs := w.reqs[r := w.reqs[r].(queued := false)])
  }

  lemma UnqueuedKeeps(c: Config, w: World, r: Req)
    requires Inv(c, w, {}) && r in w.reqs && w.reqs[r].queued
    ensures Inv(c, Unqueued(w, r), {r})
  {
    assert QueueOk(c, w.of, w.reqs, w.of[r], w.waiting[w.of[r]]);
    ShorterQueue(c, w.of, w.waiting, w.reqs, r);
    ShorterOrder(w.of, w.waiting, w.handed, w.of[r], r);
  }

  /** The request in hand leaves. */
  function Left(w: World, r: Req, how: Outcome): World {
    w.(reqs := w.reqs - {r}, ended := w.ended[r := how])
  }

  lemma LeftKeeps(c: Config, w: World, r: Req, how: Outcome)
    requires Inv(c, w, {r}) && if r in w.handed then Served(how) else Unserved(how)
    ensures Inv(c, Left(w, r, how), {})
  {
    FewerRequests(c, w.of, w.waiting, w.reqs, r);
  }

  /** The connection forgets its request; the request is in hand again. */
  function CutLoose(w: World, u: Up): World
    requires u in w.ups && w.ups[u].current.Some? && w.ups[u].current.value in w.reqs
  {
    var r := w.ups[u].current.value;
    w.(ups := w.ups[u := w.ups[u].(current := None)], reqs := w.reqs[r := w.reqs[r].(up := None)])
  }

  lemma CutLoosePairs(reqs: map<Req, Request>, ups: map<Up, Upstream>, u: Up)
    requires PairsOk(reqs, ups) && u in ups && ups[u].current.Some?
    ensures var r := ups[u].current.value;
      PairsOk(reqs[r := reqs[r].(up := None)], ups[u := ups[u].(current := None)])
  {
  }

  lemma CutLooseKeeps(c: Config, w: World, u: Up)
    requires Inv(c, w, {}) && u in w.ups && w.ups[u].current.Some?
    ensures Inv(c, CutLoose(w, u), {w.ups[u].current.value})
  {
    SameQueues(c, w.of, w.waiting, w.reqs, CutLoose(w, u).reqs);
    SameLinks(c, w, u, w.ups[u].(current := None));
    CutLoosePairs(w.reqs, w.ups, u);
  }

  /** The request in hand becomes the connection's current one; its wait timer is gone. */
  function Attached(w: World, u: Up, r: Req): World
    requires u in w.ups && r in w.reqs
  {
    w.(ups := w.ups[u := w.ups[u].(busy := true, current := Some(r))],
       reqs := w.reqs[r := w.reqs[r].(up := Some(u), timer := false)],
       handed := w.handed + [r])
  }

  /** The request in hand is the oldest its target knows of. */
  predicate Oldest(of: seq<Target>, waiting: seq<seq<Req>>, handed: seq<Req>, r: Req) {
    && r < |of| && of[r] < |waiting|
    && (forall k | 0 <= k < |waiting[of[r]]| :: r < waiting[of[r]][k])
    && (forall i | 0 <= i < |handed| :: handed[i] < |of| && (of[handed[i]] == of[r] ==> handed[i] < r))
  }

  lemma AttachedPairs(reqs: map<Req, Request>, ups: map<Up, Upstream>, u: Up, r: Req)
    requires PairsOk(reqs, ups) && u in ups && !ups[u].busy && !ups[u].dead && r in reqs && reqs[r].up.None?
    ensures PairsOk(reqs[r := reqs[r].(up := Some(u), timer := false)],
                    ups[u := ups[u].(busy := true, current := Some(r))])
  {
  }

  lemma AttachedOrder(of: seq<Target>, waiting: seq<seq<Req>>, handed: seq<Req>, r: Req)
    requires InOrder(of, waiting, handed) && Oldest(of, waiting, handed, r)
    ensures InOrder(of, waiting, handed + [r])
  {
  }

  lemma AttachedKeeps(c: Config, w: World, u: Up, r: Req)
    requires Inv(c, w, {r}) && u in w.ups && !w.ups[u].dead && !w.ups[u].busy && Oldest(w.of, w.waiting, w.handed, r)
    ensures Inv(c, Attached(w, u, r), {})
  {
    SameQueues(c, w.of, w.waiting, w.reqs, Attached(w, u, r).reqs);
    SameLinks(c, w, u, w.ups[u].(busy := true, current := Some(r)));
    AttachedPairs(w.reqs, w.ups, u, r);
    AttachedOrder(w.of, w.waiting, w.handed, r);
  }

  /** A change of a connection's flags. */
  function Flagged(w: World, u: Up, p: Upstream): World { w.(ups := w.ups[u := p]) }

  predicate SameLink(p: Upstream, q: Upstream) {
    && p.t == q.t && p.current == q.current && p.dead == q.dead
    && (p.current.Some? ==> p.busy) && (p.dead ==> p.active > 0)
  }

  lemma FlaggedKeeps(c: Config, w: World, u: Up, p: Upstream)
    requires Inv(c, w, {}) && u in w.ups && SameLink(p, w.ups[u])
    ensures Inv(c, Flagged(w, u, p), {})
  {
    SameLinks(c, w, u, p);
  }

  /** The connection leaves its target's list and gives its slot back; the struct is freed unless a
      caller up the stack still reads it. */
  function Dropped(w: World, u: Up): World
    requires u in w.ups && w.ups[u].t < |w.links| == |w.slots| && w.slots[w.ups[u].t] > 0
  {
    var p := w.ups[u];
    var v := w.(links := w.links[p.t := Without(w.links[p.t], u)], slots := w.slots[p.t := w.slots[p.t] - 1]);
    if p.active > 0 then v.(ups := v.ups[u := p.(dead := true)]) else Freed(v, u)
  }

  function Freed(w: World, u: Up): World { w.(ups := w.ups - {u}, freed := w.freed + {u}) }

  lemma DroppedPairs(reqs: map<Req, Request>, ups: map<Up, Upstream>, u: Up)
    requires PairsOk(reqs, ups) && u in ups && ups[u].current.None?
    ensures PairsOk(reqs, ups - {u}) && PairsOk(reqs, ups[u := ups[u].(dead := true)])
  {
  }

  lemma DroppedKeeps(c: Config, w: World, u: Up)
    requires Inv(c, w, {}) && u in w.ups && !w.ups[u].dead && w.ups[u].current.None?
    ensures w.ups[u].t < |w.links| == |w.slots| && w.slots[w.ups[u].t] > 0
    ensures Inv(c, Dropped(w, u), {})
  {
    if w.ups[u].active > 0 {
      DeadAndUnlinked(c, w, u);
    } else {
      FreedAndUnlinked(c, w, u);
    }
    DroppedPairs(w.reqs, w.ups, u);
  }

  /** The caller up the stack is done with the struct. */
  function Returned(w: World, u: Up): World
    requires u in w.ups && w.ups[u].active > 0
  {
    var p := w.ups[u];
    if p.dead && p.active == 1 then Freed(w, u) else Flagged(w, u, p.(active := p.active - 1))
  }

  lemma ReturnedKeeps(c: Config, w: World, u: Up)
    requires Inv(c, w, {}) && u in w.ups && w.ups[u].active > 0
    ensures Inv(c, Returned(w, u), {})
  {
    var p := w.ups[u];
    if p.dead && p.active == 1 {
      FreedLinks(c, w, u);
      DroppedPairs(w.reqs, w.ups, u);
    } else {
      FlaggedKeeps(c, w, u, p.(active := p.active - 1));
    }
  }

  /** A connection was opened: it holds a slot and is last on its target's list. */
  function Opened(w: World, t: Target, connecting: bool): World
    requires t < |w.links| == |w.slots|
  {
    w.(ups := w.ups[w.nextUp := Upstream(t, false, None, connecting, 0, false)],
       links := w.links[t := w.links[t] + [w.nextUp]], slots := w.slots[t := w.slots[t] + 1], nextUp := w.nextUp + 1)
  }

  lemma OpenedKeeps(c: Config, w: World, t: Target, connecting: bool)
    requires Inv(c, w, {}) && t < c.N()
    ensures Inv(c, Opened(w, t, connecting), {})
  {
    MoreLinks(c, w, t, connecting);
    assert w.nextUp !in w.ups;
  }

  /** A request arrives at the tail of its target's queue. */
  function Arrived(w: World, t: Target, timer: bool): World
    requires t < |w.waiting|
  {
    var r := |w.of|;
    w.(of := w.of + [t], waiting := w.waiting[t := w.waiting[t] + [r]], reqs := w.reqs[r := Request(true, timer, None)])
  }

  lemma ArrivedKeeps(c: Config, w: World, t: Target, timer: bool)
    requires Inv(c, w, {}) && t < c.N() && (c.wait ==> |w.waiting[t]| < c.queueMax)
    requires c.wait && (forall n :: c.env.timerMade(n)) ==> timer
    ensures Inv(c, Arrived(w, t, timer), {})
  {
    LongerQueue(c, w.of, w.waiting, w.reqs, t, timer);
    LongerOrder(w.of, w.waiting, w.handed, t);
    NewRequest(w.of, w.reqs, w.ended, w.ups, t, timer);
  }

  lemma NewRequest(of: seq<Target>, reqs: map<Req, Request>, ended: map<Req, Outcome>, ups: map<Up, Upstream>,
      t: Target, timer: bool)
    requires Accounted(of, reqs, ended) && HandOk(reqs, {}) && PairsOk(reqs, ups)
    ensures var more := reqs[|of| := Request(true, timer, None)];
      Accounted(of + [t], more, ended) && HandOk(more, {}) && PairsOk(more, ups)
  {
    assert |of| !in reqs && |of| !in ended;
  }

  /** A request that ends where it arrived. */
  function Turned(w: World, t: Target, how: Outcome): World {
    w.(of := w.of + [t], ended := w.ended[|w.of| := how])
  }

  lemma TurnedKeeps(c: Config, w: World, t: Target, how: Outcome)
    requires Inv(c, w, {}) && t < c.N() && Unserved(how)
    ensures Inv(c, Turned(w, t, how), {})
  {
    LongerOf(c, w.of, w.waiting, w.reqs, t);
    LongerOrder(w.of, w.waiting, w.handed, t);
    assert |w.of| !in w.reqs && |w.of| !in w.handed;
  }

  /** A wait timer is set for a queued request. */
  function Timed(w: World, r: Req): World
    requires r in w.reqs
  {
    w.(reqs := w.reqs[r := w.reqs[r].(timer := true)])
  }

  lemma TimedPairs(reqs: map<Req, Request>, ups: map<Up, Upstream>, r: Req)
    requires PairsOk(reqs, ups) && r in reqs
    ensures PairsOk(reqs[r := reqs[r].(timer := true)], ups)
  {
  }

  lemma TimedHand(reqs: map<Req, Request>, r: Req)
    requires HandOk(reqs, {}) && r in reqs
    ensures HandOk(reqs[r := reqs[r].(timer := true)], {})
  {
  }

  lemma TimedKeeps(c: Config, w: World, r: Req)
    requires Inv(c, w, {}) && r in w.reqs
    ensures Inv(c, Timed(w, r), {})
  {
    TimedHand(w.reqs, r);
    SameQueues(c, w.of, w.waiting, w.reqs, Timed(w, r).reqs);
    TimedPairs(w.reqs, w.ups, r);
  }

  /** Taking the head of a queue takes the oldest request its target knows of. */
  lemma OldestAtHead(c: Config, w: World, t: Target)
    requires Inv(c, w, {}) && t < c.N() && w.waiting[t] != []
    ensures var r := w.waiting[t][0];
      && r in w.reqs && w.reqs[r].queued && r < |w.of| && w.of[r] == t
      && Unqueued(w, r).waiting[t] == w.waiting[t][1..]
      && Oldest(w.of, Unqueued(w, r).waiting, w.handed, r)
  {
    assert QueueOk(c, w.of, w.reqs, t, w.waiting[t]);
  }

  lemma QueuedNotHanded(c: Config, w: World, r: Req)
    requires Inv(c, w, {}) && r in w.reqs && w.reqs[r].queued
    ensures r !in w.handed
  {
    var k :| 0 <= k < |w.waiting[w.of[r]]| && w.waiting[w.of[r]][k] == r;
  }

  // ---- where every request is, and what a pump leaves behind ----

  predicate IsQueued(w: World, r: Req) { r < |w.of| && w.of[r] < |w.waiting| && r in w.waiting[w.of[r]] }

  predicate IsOn(w: World, r: Req, u: Up) { u in w.ups && w.ups[u].current == Some(r) }

  /** Between two events a request that ever arrived is in exactly one place: its target's queue, the
      one connection it is current on, or ended. */
  lemma OnePlace(c: Config, w: World, r: Req)
    requires Inv(c, w, {}) && r < |w.of|
    ensures IsQueued(w, r) ==> r !in w.ended && forall u: Up :: !IsOn(w, r, u)
    ensures r in w.ended ==> !IsQueued(w, r) && forall u: Up :: !IsOn(w, r, u)
    ensures IsQueued(w, r) || r in w.ended || exists u: Up :: IsOn(w, r, u)
    ensures forall u: Up, v: Up :: IsOn(w, r, u) && IsOn(w, r, v) ==> u == v
    ensures forall u: Up :: IsOn(w, r, u) ==> w.ups[u].busy && w.ups[u].t < |w.links| && u in w.links[w.ups[u].t]
  {
    assert QueueOk(c, w.of, w.reqs, w.of[r], w.waiting[w.of[r]]);
    if r in w.reqs && w.reqs[r].up.Some? {
      assert IsOn(w, r, w.reqs[r].up.value);
    }
  }

  /** Target t's queue is empty, or nothing idle could take a request from it; under the default
      policy only requests that wait briefly for a sibling's connection are left. */
  predicate Quiet(c: Config, t: Target, queue: seq<Req>, reqs: map<Req, Request>, list: seq<Up>,
                  ups: map<Up, Upstream>, full: bool)
    requires t < c.N()
  {
    queue != [] ==>
      && (forall i | 0 <= i < |list| :: list[i] in ups && ups[list[i]].busy)
      && (!c.wait ==> full && |queue| <= c.maxUp[t])
      && (!c.wait ==> forall i | 0 <= i < |queue| :: queue[i] in reqs && reqs[queue[i]].timer)
  }

  predicate QuietAt(c: Config, w: World, t: Target)
    requires |w.waiting| == |w.links| == |w.full| == c.N() && t < c.N()
  {
    Quiet(c, t, w.waiting[t], w.reqs, w.links[t], w.ups, w.full[t])
  }

  predicate AllQuiet(c: Config, w: World) {
    && |w.waiting| == |w.links| == |w.full| == c.N()
    && forall t | 0 <= t < c.N() :: QuietAt(c, w, t)
  }

  /** What has happened stays: outcomes, hand-overs and frees are never undone, and a struct a caller
      holds is still there. */
  predicate Later(v: World, w: World) {
    && v.of <= w.of && v.handed <= w.handed && v.freed <= w.freed
    && (forall r: Req | r in v.ended :: r in w.ended && w.ended[r] == v.ended[r])
    && (forall u: Up | u in v.ups && v.ups[u].active > 0 :: u in w.ups && w.ups[u].active == v.ups[u].active)
    && (forall u: Up | u in w.ups && w.ups[u].active > 0 :: u in v.ups && w.ups[u].active == v.ups[u].active)
  }

  /** No request has arrived since. */
  predicate Onward(v: World, w: World) { Later(v, w) && v.of == w.of }

  /** Nothing of another target is touched, and no request appears. */
  predicate Elsewhere(c: Config, v: World, w: World, t: Target) {
    && |v.waiting| == |v.links| == |v.full| == c.N() && |w.waiting| == |w.links| == |w.full| == c.N()
    && w.reqs.Keys <= v.reqs.Keys
    && (forall s | 0 <= s < c.N() && s != t ::
        w.waiting[s] == v.waiting[s] && w.links[s] == v.links[s] && w.full[s] == v.full[s])
    && (forall r: Req | r in v.reqs && v.reqs[r].queued && r < |v.of| && v.of[r] != t ::
        r in w.reqs && w.reqs[r] == v.reqs[r])
    && (forall u: Up | u in v.ups && v.ups[u].t != t :: u in w.ups && w.ups[u] == v.ups[u])
  }

  ghost predicate Moves(c: Config, v: World, w: World, t: Target) {
    Onward(v, w) && Elsewhere(c, v, w, t)
  }

  lemma MovesOn(c: Config, v: World, w: World, x: World, t: Target)
    requires Moves(c, v, w, t) && Moves(c, w, x, t)
    ensures Moves(c, v, x, t)
  {
  }

  lemma QuietElsewhere(c: Config, v: World, w: World, t: Target, s: Target)
    requires Inv(c, v, {}) && Elsewhere(c, v, w, t) && s < c.N() && s != t && QuietAt(c, v, s)
    ensures QuietAt(c, w, s)
  {
    assert QueueOk(c, v.of, v.reqs, s, v.waiting[s]);
    assert LinkOk(v.ups, s, v.links[s]);
  }

  // ---- the steps of the handlers ----

  /** A queued request leaves its queue and is answered. */
  function Rejected(w: World, r: Req, how: Outcome): World
    requires r in w.reqs && r < |w.of| && w.of[r] < |w.waiting|
  {
    Left(Unqueued(w, r), r, how)
  }

  lemma RejectedMoves(c: Config, w: World, r: Req, how: Outcome)
    requires |w.waiting| == |w.links| == |w.full| == c.N()
    requires r in w.reqs && r < |w.of| && w.of[r] < |w.waiting| && r !in w.ended
    ensures Moves(c, w, Rejected(w, r, how), w.of[r])
  {
  }

  lemma RejectedKeeps(c: Config, w: World, r: Req, how: Outcome)
    requires Inv(c, w, {}) && r in w.reqs && w.reqs[r].queued && Unserved(how)
    ensures Inv(c, Rejected(w, r, how), {})
  {
    QueuedNotHanded(c, w, r);
    UnqueuedKeeps(c, w, r);
    LeftKeeps(c, Unqueued(w, r), r, how);
  }

  /** The request on a connection, if any, is answered; the connection forgets it. */
  function Concluded(w: World, u: Up, how: Outcome): World
    requires u in w.ups && (w.ups[u].current.Some? ==> w.ups[u].current.value in w.reqs)
  {
    if w.ups[u].current.None? then w else Left(CutLoose(w, u), w.ups[u].current.value, how)
  }

  lemma ConcludedMoves(c: Config, w: World, u: Up, how: Outcome)
    requires |w.waiting| == |w.links| == |w.full| == c.N() && u in w.ups
    requires var r := w.ups[u].current; r.Some? ==> r.value in w.reqs && !w.reqs[r.value].queued && r.value !in w.ended
    ensures Moves(c, w, Concluded(w, u, how), w.ups[u].t)
  {
    ConcludedLater(w, u, how);
  }

  lemma ConcludedLater(w: World, u: Up, how: Outcome)
    requires u in w.ups
    requires w.ups[u].current.Some? ==> w.ups[u].current.value in w.reqs && w.ups[u].current.value !in w.ended
    ensures Onward(w, Concluded(w, u, how))
  {
  }

  lemma ConcludedKeeps(c: Config, w: World, u: Up, how: Outcome)
    requires Inv(c, w, {}) && u in w.ups && Served(how)
    ensures Inv(c, Concluded(w, u, how), {})
  {
    if w.ups[u].current.Some? {
      CutLooseKeeps(c, w, u);
      LeftKeeps(c, CutLoose(w, u), w.ups[u].current.value, how);
    }
  }

  /** The head of target t's queue is handed to a connection. */
  function HandedOver(w: World, t: Target, u: Up): World
    requires t < |w.waiting| && w.waiting[t] != [] && w.waiting[t][0] in w.reqs && w.waiting[t][0] < |w.of|
    requires w.of[w.waiting[t][0]] == t && u in w.ups
  {
    Attached(Unqueued(w, w.waiting[t][0]), u, w.waiting[t][0])
  }

  lemma HandedOverMoves(c: Config, w: World, t: Target, u: Up)
    requires |w.waiting| == |w.links| == |w.full| == c.N()
    requires t < |w.waiting| && w.waiting[t] != [] && w.waiting[t][0] in w.reqs && w.waiting[t][0] < |w.of|
    requires w.of[w.waiting[t][0]] == t && u in w.ups && w.ups[u].t == t
    ensures Moves(c, w, HandedOver(w, t, u), t)
  {
  }

  lemma HandedOverKeeps(c: Config, w: World, t: Target, u: Up)
    requires Inv(c, w, {}) && t < c.N() && w.waiting[t] != []
    requires u in w.ups && !w.ups[u].dead && !w.ups[u].busy
    ensures var r := w.waiting[t][0]; r in w.reqs && w.reqs[r].queued && r < |w.of| && w.of[r] == t
    ensures Inv(c, HandedOver(w, t, u), {})
    ensures HandedOver(w, t, u).waiting[t] == w.waiting[t][1..]
  {
    OldestAtHead(c, w, t);
    var r := w.waiting[t][0];
    UnqueuedKeeps(c, w, r);
    AttachedKeeps(c, Unqueued(w, r), u, r);
  }

  lemma DroppedMoves(c: Config, w: World, u: Up)
    requires |w.waiting| == |w.links| == |w.full| == c.N() && u in w.ups && !w.ups[u].dead
    requires w.ups[u].t < |w.links| == |w.slots| && w.slots[w.ups[u].t] > 0
    ensures Moves(c, w, Dropped(w, u), w.ups[u].t)
  {
  }

  lemma OpenedMoves(c: Config, w: World, t: Target, connecting: bool)
    requires |w.waiting| == |w.links| == |w.full| == |w.slots| == c.N() && t < c.N() && w.nextUp !in w.ups
    ensures Moves(c, w, Opened(w, t, connecting), t)
  {
  }

  lemma TimedMoves(c: Config, w: World, r: Req)
    requires |w.waiting| == |w.links| == |w.full| == c.N() && r in w.reqs && r < |w.of|
    ensures Moves(c, w, Timed(w, r), w.of[r])
  {
  }

  /** The connection's request is answered and the connection dropped. */
  function Severed(w: World, u: Up, how: Outcome): World
    requires u in w.ups && (w.ups[u].current.Some? ==> w.ups[u].current.value in w.reqs)
    requires w.ups[u].t < |w.links| == |w.slots| && w.slots[w.ups[u].t] > 0
  {
    Dropped(Concluded(w, u, how), u)
  }

  lemma SeveredKeeps(c: Config, w: World, u: Up, how: Outcome)
    requires Inv(c, w, {}) && u in w.ups && !w.ups[u].dead && Served(how)
    ensures w.ups[u].current.Some? ==> w.ups[u].current.value in w.reqs
    ensures w.ups[u].t < |w.links| == |w.slots| && w.slots[w.ups[u].t] > 0
    ensures Inv(c, Severed(w, u, how), {}) && Moves(c, w, Severed(w, u, how), w.ups[u].t)
    ensures w.ups[u].current.Some? ==> Severed(w, u, how).reqs.Keys < w.reqs.Keys
  {
    ConcludedKeeps(c, w, u, how);
    ConcludedMoves(c, w, u, how);
    var v := Concluded(w, u, how);
    DroppedKeeps(c, v, u);
    DroppedMoves(c, v, u);
    MovesOn(c, w, v, Dropped(v, u), w.ups[u].t);
  }

  lemma MovesSelf(c: Config, w: World, t: Target)
    requires |w.waiting| == |w.links| == |w.full| == c.N()
    ensures Moves(c, w, w, t)
  {
  }

  lemma LaterOn(v: World, w: World, x: World)
    requires Later(v, w) && Later(w, x)
    ensures Later(v, x)
  {
  }

  function Told(w: World, t: Target, held: bool): World
    requires t < |w.full|
  {
    w.(full := w.full[t := held])
  }

  lemma ToldKeeps(c: Config, w: World, t: Target, held: bool)
    requires Inv(c, w, {}) && t < c.N()
    ensures Inv(c, Told(w, t, held), {}) && Moves(c, w, Told(w, t, held), t)
  {
  }

  predicate TimersTo(queue: seq<Req>, reqs: map<Req, Request>, k: nat) {
    k <= |queue| && forall i | 0 <= i < k :: queue[i] in reqs && reqs[queue[i]].timer
  }

  lemma TimersNext(queue: seq<Req>, reqs: map<Req, Request>, k: nat)
    requires k < |queue| && TimersTo(queue, reqs, k) && queue[k] in reqs
    ensures TimersTo(queue, reqs[queue[k] := reqs[queue[k]].(timer := true)], k + 1)
    ensures reqs[queue[k]].timer ==> TimersTo(queue, reqs, k + 1)
  {
  }

  lemma ArrivedLater(w: World, t: Target, timer: bool)
    requires t < |w.waiting|
    ensures Later(w, Arrived(w, t, timer))
  {
  }

  lemma TurnedLater(w: World, t: Target, how: Outcome)
    requires |w.of| !in w.ended
    ensures Later(w, Turned(w, t, how))
  {
  }

  /** Cutting a queue behind its first k requests leaves those as they are. */
  lemma TimersCut(c: Config, w: World, t: Target, k: nat)
    requires t < |w.waiting| && k < |w.waiting[t]| && Increasing(w.waiting[t]) && TimersTo(w.waiting[t], w.reqs, k)
    requires w.waiting[t][k] in w.reqs && w.waiting[t][k] < |w.of| && w.of[w.waiting[t][k]] == t
    ensures var v := Rejected(w, w.waiting[t][k], Unavailable); TimersTo(v.waiting[t], v.reqs, k)
  {
    WithoutAt(w.waiting[t], k);
  }

  lemma QuietWithout(c: Config, w: World, t: Target, r: Req, how: Outcome)
    requires |w.waiting| == |w.links| == |w.full| == c.N() && t < c.N() && QuietAt(c, w, t)
    requires QueueOk(c, w.of, w.reqs, t, w.waiting[t]) && r in w.reqs && r < |w.of| && w.of[r] == t
    ensures QuietAt(c, Rejected(w, r, how), t)
  {
    var v := Rejected(w, r, how);
    WithoutSpec(w.waiting[t], r);
    assert forall i | 0 <= i < |v.waiting[t]| :: v.waiting[t][i] in w.waiting[t] && v.waiting[t][i] != r;
  }

  lemma ConcludedQuiet(c: Config, w: World, u: Up, how: Outcome)
    requires Inv(c, w, {}) && AllQuiet(c, w) && u in w.ups
    ensures AllQuiet(c, Concluded(w, u, how))
  {
    var v := Concluded(w, u, how);
    forall s | 0 <= s < c.N() ensures QuietAt(c, v, s) {
      assert QuietAt(c, w, s) && QueueOk(c, w.of, w.reqs, s, w.waiting[s]);
    }
  }

  lemma DroppedShorter(c: Config, w: World, u: Up)
    requires LinksOk(c, w.links, w.slots, w.ups, w.freed, w.nextUp) && u in w.ups && !w.ups[u].dead
    requires w.ups[u].t < |w.links| == |w.slots| && w.slots[w.ups[u].t] > 0
    ensures |Dropped(w, u).links[w.ups[u].t]| < |w.links[w.ups[u].t]|
  {
    var t := w.ups[u].t;
    assert LinkOk(w.ups, t, w.links[t]);
    WithoutSpec(w.links[t], u);
  }

  lemma DroppedQuiet(c: Config, w: World, u: Up)
    requires Inv(c, w, {}) && AllQuiet(c, w) && u in w.ups && !w.ups[u].dead
    requires w.ups[u].t < |w.links| == |w.slots| && w.slots[w.ups[u].t] > 0
    ensures AllQuiet(c, Dropped(w, u))
  {
    var v := Dropped(w, u);
    forall s | 0 <= s < c.N() ensures QuietAt(c, v, s) {
      assert QuietAt(c, w, s) && LinkOk(w.ups, s, w.links[s]);
      WithoutSpec(w.links[s], u);
      assert forall i | 0 <= i < |v.links[s]| :: v.links[s][i] in w.links[s];
    }
  }

  lemma FlaggedQuiet(c: Config, w: World, u: Up, p: Upstream)
    requires AllQuiet(c, w) && u in w.ups && p.busy == w.ups[u].busy
    ensures AllQuiet(c, Flagged(w, u, p))
  {
    var v := Flagged(w, u, p);
    forall s | 0 <= s < c.N() ensures QuietAt(c, v, s) { assert QuietAt(c, w, s); }
  }

  lemma ReturnedQuiet(c: Config, w: World, u: Up)
    requires Inv(c, w, {}) && AllQuiet(c, w) && u in w.ups && w.ups[u].active > 0
    ensures AllQuiet(c, Returned(w, u))
  {
    var v := Returned(w, u);
    forall s | 0 <= s < c.N() ensures QuietAt(c, v, s) { assert QuietAt(c, w, s) && LinkOk(w.ups, s, w.links[s]); }
  }

  lemma TurnedQuiet(c: Config, w: World, t: Target, how: Outcome)
    requires AllQuiet(c, w)
    ensures AllQuiet(c, Turned(w, t, how))
  {
    forall s | 0 <= s < c.N() ensures QuietAt(c, Turned(w, t, how), s) { assert QuietAt(c, w, s); }
  }

  lemma FlaggedLater(w: World, u: Up, p: Upstream)
    requires u in w.ups && p.active == w.ups[u].active
    ensures Later(w, Flagged(w, u, p))
  {
  }

  /** A caller up the stack starts to read the struct. */
  function Held(w: World, u: Up): World
    requires u in w.ups
  {
    Flagged(w, u, w.ups[u].(active := w.ups[u].active + 1))
  }

  /** Holding a struct over any steps and returning it is a step of its own, and nothing stays held. */
  lemma ReturnedLater(v: World, w: World, u: Up)
    requires u in v.ups && Later(Held(v, u), w) && forall x: Up | x in v.ups :: v.ups[x].active == 0
    ensures u in w.ups && w.ups[u].active > 0
    ensures Later(v, Returned(w, u)) && forall x: Up | x in Returned(w, u).ups :: Returned(w, u).ups[x].active == 0
  {
    var h := Held(v, u);
    assert h.ups[u].active == 1;
    forall x: Up | x in w.ups && w.ups[x].active > 0 ensures x == u { assert x in h.ups; }
  }

  lemma HeldSame(reqs: map<Req, Request>, links: seq<seq<Up>>, ups: map<Up, Upstream>, u: Up)
    requires PairsOk(reqs, ups) && Listed(links, ups) && u in ups
    ensures SameLink(ups[u].(active := ups[u].active + 1), ups[u])
  {
  }

  lemma HeldKeeps(c: Config, w: World, u: Up)
    requires Inv(c, w, {}) && u in w.ups
    ensures Inv(c, Held(w, u), {})
  {
    HeldSame(w.reqs, w.links, w.ups, u);
    FlaggedKeeps(c, w, u, w.ups[u].(active := w.ups[u].active + 1));
  }

  lemma HeldQuiet(c: Config, w: World, u: Up)
    requires AllQuiet(c, w) && u in w.ups
    ensures AllQuiet(c, Held(w, u))
  {
    FlaggedQuiet(c, w, u, w.ups[u].(active := w.ups[u].active + 1));
  }
}
