/**
 What the http-direct worker's connection tracker does, as functions on the list it keeps: one entry
 per tracked connection, most recently touched first.
 */
module TrackerSpec {
  import opened Shared

  /** What getpeername said: nothing, an IP address without its port, or a peer of another family. */
  datatype Peer = NoPeer | Ip(address: nat) | Other

  /** The plain fields of a node. */
  datatype Status = Status(resolved: bool, peer: Peer, checked: bool, served: bool, overCap: bool, requests: nat)

  const FRESH := Status(false, NoPeer, false, false, false, 0)

  datatype Entry = Entry(bev: nat, s: Status)

  /** What libevent answers about a bufferevent: has evhttp let go of it, is its descriptor known, and
      who is at the other end. */
  datatype Net = Net(gone: nat -> bool, known: nat -> bool, peer: nat -> Peer)

  const SWEEP_MAX := 32

  predicate KeysOnce(v: seq<Entry>) { forall i, j | 0 <= i < j < |v| :: v[i].bev != v[j].bev }

  /** May the sweeps release this node? */
  predicate Released(e: Entry, gone: nat -> bool) { (e.s.served || e.s.resolved) && gone(e.bev) }

  // ---- the sweeps ----

  /** n nodes are examined from the tail: a released one goes, another moves to the head. */
  function Rotated(v: seq<Entry>, n: nat, gone: nat -> bool): seq<Entry>
    decreases n
  {
    if n == 0 || v == [] then v
    else
      var last := |v| - 1;
      if Released(v[last], gone) then Rotated(v[..last], n - 1, gone)
      else Rotated([v[last]] + v[..last], n - 1, gone)
  }

  /** One examination, as an edit of the list. */
  lemma RotatedTurn(v: seq<Entry>, n: nat, gone: nat -> bool)
    requires n > 0 && v != []
    ensures var last := |v| - 1;
      Rotated(v, n, gone) == Rotated((if Released(v[last], gone) then [] else [v[last]]) + Cut(v, last), n - 1, gone)
  {
    var last := |v| - 1;
    assert Cut(v, last) == v[..last] && [] + v[..last] == v[..last];
  }

  function Budget(v: seq<Entry>): nat { if |v| < SWEEP_MAX then |v| else SWEEP_MAX }

  function Swept(v: seq<Entry>, gone: nat -> bool): seq<Entry> { Rotated(v, Budget(v), gone) }

  /** Every released node goes. */
  function SweptAll(v: seq<Entry>, gone: nat -> bool): seq<Entry> {
    if v == [] then []
    else
      var last := |v| - 1;
      SweptAll(v[..last], gone) + if Released(v[last], gone) then [] else [v[last]]
  }

  /** The connection x is tracked with k nodes behind it. */
  predicate Behind(v: seq<Entry>, x: nat, k: nat) { k < |v| && v[|v| - 1 - k].bev == x }

  predicate Tracked(v: seq<Entry>, x: nat) { exists i :: 0 <= i < |v| && v[i].bev == x }

  /** The list behind one examination. */
  function Examined(v: seq<Entry>, gone: nat -> bool): seq<Entry>
    requires v != []
  {
    var last := |v| - 1;
    if Released(v[last], gone) then v[..last] else [v[last]] + v[..last]
  }

  lemma ExaminedKeys(v: seq<Entry>, gone: nat -> bool, x: nat)
    requires KeysOnce(v) && v != []
    ensures KeysOnce(Examined(v, gone)) && (!Tracked(v, x) ==> !Tracked(Examined(v, gone), x))
  {
    var w, last := Examined(v, gone), |v| - 1;
    forall i | 0 <= i < |w| ensures w[i] == v[if Released(v[last], gone) then i else if i == 0 then last else i - 1] {}
  }

  /** A released node moves towards the tail, and goes from there. */
  lemma ExaminedBehind(v: seq<Entry>, gone: nat -> bool, x: nat, k: nat)
    requires KeysOnce(v) && Behind(v, x, k) && Released(v[|v| - 1 - k], gone)
    ensures var w := Examined(v, gone);
      if k > 0 then Behind(w, x, k - 1) && Released(w[|w| - 1 - (k - 1)], gone) else !Tracked(w, x)
  {
    var w, last := Examined(v, gone), |v| - 1;
    if k > 0 {
      assert w[|w| - 1 - (k - 1)] == v[|v| - 1 - k];
    } else {
      forall i | 0 <= i < |w| ensures w[i].bev != x { assert w[i] == v[i]; }
    }
  }

  /** A released node with k nodes behind it is gone after k + 1 examinations, and moves towards the
      tail with every one before that. */
  lemma {:induction false} RotationReaches(v: seq<Entry>, n: nat, gone: nat -> bool, x: nat, k: nat)
    requires KeysOnce(v) && Behind(v, x, k) && Released(v[|v| - 1 - k], gone) && n <= |v|
    ensures KeysOnce(Rotated(v, n, gone))
    ensures n > k ==> !Tracked(Rotated(v, n, gone), x)
    ensures n <= k ==>
      var w := Rotated(v, n, gone); Behind(w, x, k - n) && Released(w[|w| - 1 - (k - n)], gone)
    decreases n
  {
    if n > 0 {
      var next := Examined(v, gone);
      ExaminedKeys(v, gone, x);
      ExaminedBehind(v, gone, x, k);
      assert Rotated(v, n, gone) == Rotated(next, n - 1, gone);
      if k > 0 { RotationReaches(next, n - 1, gone, x, k - 1); } else { RotationWithout(next, n - 1, gone, x); }
    }
  }

  lemma {:induction false} RotationWithout(v: seq<Entry>, n: nat, gone: nat -> bool, x: nat)
    requires KeysOnce(v) && !Tracked(v, x)
    ensures KeysOnce(Rotated(v, n, gone)) && !Tracked(Rotated(v, n, gone), x)
    decreases n
  {
    if n > 0 && v != [] {
      ExaminedKeys(v, gone, x);
      RotationWithout(Examined(v, gone), n - 1, gone, x);
    }
  }

  // ---- edits by key ----

  function Without(v: seq<Entry>, bev: nat): seq<Entry> {
    if v == [] then [] else if v[0].bev == bev then v[1..] else [v[0]] + Without(v[1..], bev)
  }

  lemma {:induction false} WithoutAt(v: seq<Entry>, k: nat)
    requires KeysOnce(v) && k < |v|
    ensures Without(v, v[k].bev) == Cut(v, k)
    decreases |v|
  {
    if k > 0 {
      WithoutAt(v[1..], k - 1);
      assert v[1..][k - 1] == v[k];
      assert Cut(v, k) == [v[0]] + Cut(v[1..], k - 1);
    }
  }

  /** The node with this key gets these fields. */
  function Set(v: seq<Entry>, bev: nat, s: Status): (w: seq<Entry>)
    ensures |w| == |v|
  {
    seq(|v|, i requires 0 <= i < |v| => if v[i].bev == bev then Entry(bev, s) else v[i])
  }

  /** The status of the tracked connection. */
  function Get(v: seq<Entry>, bev: nat): Status
    requires Tracked(v, bev)
  {
    if v[0].bev == bev then v[0].s else assert Tracked(v[1..], bev) by { TrackedTail(v, bev); } Get(v[1..], bev)
  }

  lemma TrackedTail(v: seq<Entry>, bev: nat)
    requires Tracked(v, bev) && v[0].bev != bev
    ensures Tracked(v[1..], bev)
  {
    var i :| 0 <= i < |v| && v[i].bev == bev;
    assert v[1..][i - 1].bev == bev;
  }

  lemma {:induction false} GetAt(v: seq<Entry>, k: nat)
    requires KeysOnce(v) && k < |v|
    ensures Tracked(v, v[k].bev) && Get(v, v[k].bev) == v[k].s
    decreases |v|
  {
    if k > 0 {
      GetAt(v[1..], k - 1);
      assert v[1..][k - 1] == v[k];
    }
  }

  /** The descriptor and the peer are filled in, once. */
  function Resolve(e: Entry, net: Net): Entry {
    if e.s.resolved || !net.known(e.bev) then e else e.(s := e.s.(resolved := true, peer := net.peer(e.bev)))
  }

  function ResolveOthers(v: seq<Entry>, bev: nat, net: Net): (w: seq<Entry>)
    ensures |w| == |v|
  {
    seq(|v|, i requires 0 <= i < |v| => if v[i].bev == bev then v[i] else Resolve(v[i], net))
  }

  function Count(v: seq<Entry>, p: Entry -> bool): nat {
    if v == [] then 0 else (if p(v[0]) then 1 else 0) + Count(v[1..], p)
  }

  /** The other connections of this client that still count against it. */
  function Peers(v: seq<Entry>, bev: nat, peer: Peer): nat {
    Count(v, (e: Entry) => e.bev != bev && !e.s.overCap && peer.Ip? && e.s.peer == peer)
  }

  // ---- the calls ----

  datatype Limits = Limits(maxConnections: nat, maxPerClient: nat, trackLive: bool)

  predicate Limited(l: Limits) { l.maxConnections > 0 || l.maxPerClient > 0 }

  /** Judges a connection against the per-client cap, once; `drop` says that it stays on the list, marked,
      when it is refused. */
  function Judged(v: seq<Entry>, bev: nat, net: Net, l: Limits, drop: bool): (seq<Entry>, bool)
    requires Tracked(v, bev)
  {
    var s := Get(v, bev);
    if s.checked || l.maxPerClient == 0 then (v, true)
    else
      var marked := Set(v, bev, s.(checked := true));
      if s.peer.NoPeer? then (marked, true)
      else
        var seen := ResolveOthers(SweptAll(marked, net.gone), bev, net);
        if Peers(seen, bev, s.peer) < l.maxPerClient then (seen, true)
        else if drop then (Set(seen, bev, s.(checked := true, overCap := true)), false)
        else (Without(seen, bev), false)
  }

  /** The loop pass after the accept; `watched` says that the EOF watcher could be armed. */
  function PickedUp(v: seq<Entry>, bev: nat, net: Net, l: Limits, watched: bool): seq<Entry>
    requires Tracked(v, bev)
  {
    var e := Resolve(Entry(bev, Get(v, bev)), net);
    if !e.s.resolved then Without(v, bev)
    else
      SetTracks(v, bev, e.s);
      var (w, admitted) := Judged(Set(v, bev, e.s), bev, net, l, true);
      if admitted && !watched then Without(w, bev) else w
  }

  /** A node's fields when a request of its connection is judged. */
  function Asks(s: Status, bev: nat, net: Net): Status {
    Resolve(Entry(bev, s.(requests := s.requests + 1)), net).s
  }

  function Asking(v: seq<Entry>, bev: nat, net: Net): Status
    requires Tracked(v, bev)
  {
    Asks(Get(v, bev), bev, net)
  }

  /** A request on a connection: is it answered, and what the list is then. */
  function Requested(v: seq<Entry>, bev: nat, net: Net, l: Limits): (seq<Entry>, bool) {
    if !Tracked(v, bev) then (v, true)
    else
      var s := Get(v, bev);
      if s.overCap then (Without(v, bev), false)
      else
        SetTracks(v, bev, Asking(v, bev, net));
        AfterJudge(Judged(Set(v, bev, Asking(v, bev, net)), bev, net, l, false), bev, l)
  }

  /** What a request does once its connection is judged. */
  function AfterJudge(judged: (seq<Entry>, bool), bev: nat, l: Limits): (seq<Entry>, bool) {
    var (w, admitted) := judged;
    if !admitted then (w, false)
    else if !l.trackLive && !Limited(l) then (Without(w, bev), true)
    else if Tracked(w, bev) then ([Entry(bev, Get(w, bev).(served := true))] + Without(w, bev), true)
    else (w, true)
  }

  /** A request on a tracked connection the pickup did not refuse, once it is judged. */
  lemma RequestedIs(v: seq<Entry>, bev: nat, net: Net, l: Limits, s: Status)
    requires Tracked(v, bev) && !Get(v, bev).overCap
    requires s == Asking(v, bev, net)
    ensures Tracked(Set(v, bev, s), bev)
    ensures Requested(v, bev, net, l) == AfterJudge(Judged(Set(v, bev, s), bev, net, l, false), bev, l)
  {
    SetTracks(v, bev, s);
  }

  lemma SetTracks(v: seq<Entry>, bev: nat, s: Status)
    requires Tracked(v, bev)
    ensures Tracked(Set(v, bev, s), bev)
  {
    var i :| 0 <= i < |v| && v[i].bev == bev;
    assert Set(v, bev, s)[i].bev == bev;
  }

  lemma SetGet(v: seq<Entry>, bev: nat, s: Status)
    requires KeysOnce(v) && Tracked(v, bev)
    ensures Tracked(Set(v, bev, s), bev) && Get(Set(v, bev, s), bev) == s
  {
    var i :| 0 <= i < |v| && v[i].bev == bev;
    GetAt(Set(v, bev, s), i);
  }

  /** `room` says that memory and timers were had for a new node. */
  datatype Call =
    | Accept(bev: nat, gone: nat -> bool, room: bool)
    | Pickup(bev: nat, net: Net, watched: bool)
    | Request(bev: nat, net: Net)
    | Close(bev: nat)
    | Sweep(gone: nat -> bool)
    | Gate(gone: nat -> bool)

  function After(v: seq<Entry>, call: Call, l: Limits): seq<Entry> {
    match call
    case Accept(bev, gone, room) => (if room then [Entry(bev, FRESH)] else []) + Swept(v, gone)
    case Pickup(bev, net, watched) => if Tracked(v, bev) then PickedUp(v, bev, net, l, watched) else v
    case Request(bev, net) => Requested(v, bev, net, l).0
    case Close(bev) => Without(v, bev)
    case Sweep(gone) => Swept(v, gone)
    case Gate(gone) => if l.maxConnections > 0 && |v| >= l.maxConnections then SweptAll(v, gone) else v
  }

  /** The connection is judged now: it was not before, there is a cap, and it has a peer. */
  predicate Judges(s: Status, l: Limits) { !s.checked && l.maxPerClient > 0 && !s.peer.NoPeer? }

  /** A connection that is judged now is still evhttp's; otherwise its own sweep would release it. */
  predicate Safe(v: seq<Entry>, bev: nat, net: Net, l: Limits) {
    Tracked(v, bev) ==>
      var s := Resolve(Entry(bev, Get(v, bev)), net).s;
      Judges(s, l) ==> !net.gone(bev)
  }

  /** A new bufferevent is not one the tracker still holds; a connection is judged while evhttp owns it,
      and a request is only read from a descriptor. */
  predicate Possible(v: seq<Entry>, call: Call, l: Limits) {
    match call
    case Accept(bev, _, _) => !Tracked(v, bev)
    case Pickup(bev, net, _) => Safe(v, bev, net, l)
    case Request(bev, net) => Safe(v, bev, net, l) && net.known(bev)
    case _ => true
  }

  predicate AllPossible(v: seq<Entry>, calls: seq<Call>, l: Limits)
    decreases |calls|
  {
    calls == [] || (Possible(v, calls[0], l) && AllPossible(After(v, calls[0], l), calls[1..], l))
  }

  function Run(v: seq<Entry>, calls: seq<Call>, l: Limits): seq<Entry>
    decreases |calls|
  {
    if calls == [] then v else Run(After(v, calls[0], l), calls[1..], l)
  }

  // ---- the per-client cap ----

  predicate Admitted(e: Entry) { e.s.checked && !e.s.overCap }

  /** The admitted connections of one address. */
  function Admits(v: seq<Entry>, a: nat): nat { Count(v, (e: Entry) => Admitted(e) && e.s.peer == Ip(a)) }

  /** Each key once; only resolved connections have been judged; a refused one is not served; and every
      address is within its cap. */
  ghost predicate Fair(v: seq<Entry>, l: Limits) {
    && KeysOnce(v)
    && (forall e | e in v :: e.s.checked ==> e.s.resolved)
    && (forall e | e in v :: e.s.overCap ==> e.s.checked && !e.s.served)
    && (forall e | e in v :: l.maxPerClient > 0 && e.s.served ==> e.s.checked)
    && (l.maxPerClient > 0 ==> forall a :: Admits(v, a) <= l.maxPerClient)
  }

  lemma {:induction false} CountLe(v: seq<Entry>, w: seq<Entry>, p: Entry -> bool, q: Entry -> bool)
    requires |v| == |w| && forall i | 0 <= i < |v| :: p(w[i]) ==> q(v[i])
    ensures Count(w, p) <= Count(v, q)
    decreases |v|
  {
    if v != [] { CountLe(v[1..], w[1..], p, q); }
  }

  lemma {:induction false} CountConcat(v: seq<Entry>, w: seq<Entry>, p: Entry -> bool)
    ensures Count(v + w, p) == Count(v, p) + Count(w, p)
    decreases |v|
  {
    if v == [] { assert v + w == w; } else {
      assert (v + w)[1..] == v[1..] + w;
      CountConcat(v[1..], w, p);
    }
  }

  lemma CountFront(e: Entry, v: seq<Entry>, p: Entry -> bool)
    ensures Count([e] + v, p) == (if p(e) then 1 else 0) + Count(v, p)
  {
    assert ([e] + v)[1..] == v;
  }

  lemma CountLast(v: seq<Entry>, e: Entry, p: Entry -> bool)
    ensures Count(v + [e], p) == Count(v, p) + if p(e) then 1 else 0
  {
    CountConcat(v, [e], p);
    assert [e][1..] == [];
  }

  lemma {:induction false} CountWithout(v: seq<Entry>, bev: nat, p: Entry -> bool)
    ensures Count(Without(v, bev), p) <= Count(v, p)
    decreases |v|
  {
    if v != [] && v[0].bev != bev {
      CountWithout(v[1..], bev, p);
      CountFront(v[0], Without(v[1..], bev), p);
    }
  }

  lemma {:induction false} CountSweptAll(v: seq<Entry>, gone: nat -> bool, p: Entry -> bool)
    ensures Count(SweptAll(v, gone), p) <= Count(v, p)
    decreases |v|
  {
    if v != [] {
      var last := |v| - 1;
      CountSweptAll(v[..last], gone, p);
      assert v == v[..last] + [v[last]];
      CountLast(v[..last], v[last], p);
      CountLast(SweptAll(v[..last], gone), v[last], p);
      assert SweptAll(v[..last], gone) + [] == SweptAll(v[..last], gone);
    }
  }

  lemma {:induction false} CountRotated(v: seq<Entry>, n: nat, gone: nat -> bool, p: Entry -> bool)
    ensures Count(Rotated(v, n, gone), p) <= Count(v, p)
    decreases n
  {
    if n > 0 && v != [] {
      var last := |v| - 1;
      assert v == v[..last] + [v[last]];
      CountLast(v[..last], v[last], p);
      CountFront(v[last], v[..last], p);
      CountRotated(if Released(v[last], gone) then v[..last] else [v[last]] + v[..last], n - 1, gone, p);
    }
  }

  /** With each key once, leaving one key out lowers a count by at most one. */
  lemma {:induction false} CountButOne(v: seq<Entry>, bev: nat, p: Entry -> bool, q: Entry -> bool)
    requires KeysOnce(v) && forall e | e in v && e.bev != bev :: p(e) ==> q(e)
    ensures Count(v, p) <= Count(v, q) + 1
    decreases |v|
  {
    if v != [] {
      if v[0].bev == bev {
        assert forall i | 0 <= i < |v[1..]| :: v[1..][i].bev != bev;
        CountLe(v[1..], v[1..], p, q);
      } else {
        CountButOne(v[1..], bev, p, q);
      }
    }
  }

  // ---- every call keeps the cap ----

  lemma {:induction false} WithoutKeys(v: seq<Entry>, bev: nat)
    requires KeysOnce(v)
    ensures KeysOnce(Without(v, bev)) && !Tracked(Without(v, bev), bev)
    ensures forall e :: e in Without(v, bev) <==> e in v && e.bev != bev
    decreases |v|
  {
    if v != [] {
      assert v == [v[0]] + v[1..];
      WithoutKeys(v[1..], bev);
      if v[0].bev != bev {
        var less := Without(v[1..], bev);
        forall i | 0 <= i < |less| ensures less[i].bev != v[0].bev { assert less[i] in v[1..]; }
      } else {
        assert forall e | e in v[1..] :: e.bev != bev;
      }
    }
  }

  lemma FairWithout(v: seq<Entry>, bev: nat, l: Limits)
    requires Fair(v, l)
    ensures Fair(Without(v, bev), l)
  {
    WithoutKeys(v, bev);
    forall a ensures l.maxPerClient > 0 ==> Admits(Without(v, bev), a) <= l.maxPerClient {
      CountWithout(v, bev, (e: Entry) => Admitted(e) && e.s.peer == Ip(a));
      assert Admits(Without(v, bev), a) <= Admits(v, a);
    }
  }

  lemma {:induction false} SweptAllKeys(v: seq<Entry>, gone: nat -> bool)
    requires KeysOnce(v)
    ensures KeysOnce(SweptAll(v, gone))
    ensures forall e :: e in SweptAll(v, gone) <==> e in v && !Released(e, gone)
    decreases |v|
  {
    if v != [] {
      var last := |v| - 1;
      SweptAllKeys(v[..last], gone);
      assert v == v[..last] + [v[last]];
      var less := SweptAll(v[..last], gone);
      forall i | 0 <= i < |less| ensures less[i].bev != v[last].bev { assert less[i] in v[..last]; }
    }
  }

  /** A node is still tracked behind a sweep of them all exactly when it was not released. */
  lemma SurvivesIff(v: seq<Entry>, k: nat, gone: nat -> bool)
    requires KeysOnce(v) && k < |v|
    ensures Tracked(SweptAll(v, gone), v[k].bev) <==> !Released(v[k], gone)
  {
    var w := SweptAll(v, gone);
    SweptAllKeys(v, gone);
    if !Released(v[k], gone) {
      assert v[k] in w;
    } else {
      forall e | e in w ensures e.bev != v[k].bev {
        if e.bev == v[k].bev { KeyIs(v, k, e); }
      }
    }
  }

  lemma KeyIs(v: seq<Entry>, k: nat, e: Entry)
    requires KeysOnce(v) && k < |v| && e in v && e.bev == v[k].bev
    ensures e == v[k]
  {
    var j :| 0 <= j < |v| && v[j] == e;
  }

  /** The cap sweeps before it counts: a connection that evhttp let go of before its pickup is swept by its
      own judgement. */
  lemma SweptByItsPickup(bev: nat, net: Net)
    requires net.known(bev) && net.gone(bev)
    ensures var e := Resolve(Entry(bev, FRESH), net);
      e.s.resolved && !e.s.served && !Tracked(SweptAll([e], net.gone), bev)
  {
    SurvivesIff([Resolve(Entry(bev, FRESH), net)], 0, net.gone);
  }

  lemma FairSweptAll(v: seq<Entry>, gone: nat -> bool, l: Limits)
    requires Fair(v, l)
    ensures Fair(SweptAll(v, gone), l)
  {
    SweptAllKeys(v, gone);
    forall a ensures l.maxPerClient > 0 ==> Admits(SweptAll(v, gone), a) <= l.maxPerClient {
      CountSweptAll(v, gone, (e: Entry) => Admitted(e) && e.s.peer == Ip(a));
      assert Admits(SweptAll(v, gone), a) <= Admits(v, a);
    }
  }

  lemma {:induction false} RotatedKeys(v: seq<Entry>, n: nat, gone: nat -> bool)
    requires KeysOnce(v)
    ensures KeysOnce(Rotated(v, n, gone)) && forall e | e in Rotated(v, n, gone) :: e in v
    decreases n
  {
    if n > 0 && v != [] {
      var last := |v| - 1;
      RotatedKeys(if Released(v[last], gone) then v[..last] else [v[last]] + v[..last], n - 1, gone);
    }
  }

  lemma FairSwept(v: seq<Entry>, gone: nat -> bool, l: Limits)
    requires Fair(v, l)
    ensures Fair(Swept(v, gone), l)
  {
    RotatedKeys(v, Budget(v), gone);
    forall a ensures l.maxPerClient > 0 ==> Admits(Swept(v, gone), a) <= l.maxPerClient {
      CountRotated(v, Budget(v), gone, (e: Entry) => Admitted(e) && e.s.peer == Ip(a));
      assert Admits(Swept(v, gone), a) <= Admits(v, a);
    }
  }

  /** A node at the head that counts for nobody, or for whom it counted before. */
  lemma FairFront(v: seq<Entry>, e: Entry, l: Limits)
    requires Fair(v, l) && !Tracked(v, e.bev) && !e.s.checked && !e.s.overCap && !e.s.served
    ensures Fair([e] + v, l)
  {
    forall a ensures l.maxPerClient > 0 ==> Admits([e] + v, a) <= l.maxPerClient {
      CountFront(e, v, (x: Entry) => Admitted(x) && x.s.peer == Ip(a));
      assert Admits([e] + v, a) == Admits(v, a);
    }
  }

  /** A change of fields that admits nobody new. */
  lemma FairSet(v: seq<Entry>, bev: nat, s: Status, l: Limits)
    requires Fair(v, l) && Tracked(v, bev) && (s.checked ==> s.resolved)
    requires (s.overCap ==> s.checked && !s.served) && (l.maxPerClient > 0 && s.served ==> s.checked)
    requires Admitted(Entry(bev, s)) && s.peer.Ip? ==> Admitted(Entry(bev, Get(v, bev))) && Get(v, bev).peer == s.peer
    ensures Fair(Set(v, bev, s), l)
  {
    var w := Set(v, bev, s);
    forall a ensures l.maxPerClient > 0 ==> Admits(w, a) <= l.maxPerClient {
      var p := (e: Entry) => Admitted(e) && e.s.peer == Ip(a);
      forall i | 0 <= i < |v| ensures p(w[i]) ==> p(v[i]) { if v[i].bev == bev { GetAt(v, i); } }
      CountLe(v, w, p, p);
      assert Admits(w, a) <= Admits(v, a);
    }
  }

  lemma FairOthers(v: seq<Entry>, bev: nat, net: Net, l: Limits)
    requires Fair(v, l)
    ensures Fair(ResolveOthers(v, bev, net), l)
  {
    var w := ResolveOthers(v, bev, net);
    forall a ensures l.maxPerClient > 0 ==> Admits(w, a) <= l.maxPerClient {
      var p := (e: Entry) => Admitted(e) && e.s.peer == Ip(a);
      CountLe(v, w, p, p);
      assert Admits(w, a) <= Admits(v, a);
    }
  }

  /** The list the judge counts: the connection is marked as judged, released nodes are gone, and the
      others are resolved. */
  function Seen(v: seq<Entry>, bev: nat, net: Net): seq<Entry>
    requires Tracked(v, bev)
  {
    ResolveOthers(SweptAll(Set(v, bev, Get(v, bev).(checked := true)), net.gone), bev, net)
  }

  lemma SeenFacts(v: seq<Entry>, bev: nat, net: Net)
    requires KeysOnce(v) && Tracked(v, bev) && !net.gone(bev)
    ensures KeysOnce(Seen(v, bev, net)) && Tracked(Seen(v, bev, net), bev)
    ensures Get(Seen(v, bev, net), bev) == Get(v, bev).(checked := true)
  {
    var s := Get(v, bev).(checked := true);
    var marked := Set(v, bev, s);
    SetGet(v, bev, s);
    SweptAllKeys(marked, net.gone);
    var swept := SweptAll(marked, net.gone);
    var i :| 0 <= i < |v| && v[i].bev == bev;
    assert marked[i] == Entry(bev, s) && marked[i] in swept;
    var j :| 0 <= j < |swept| && swept[j] == marked[i];
    assert Seen(v, bev, net)[j] == Entry(bev, s);
    GetAt(Seen(v, bev, net), j);
  }

  /** Seen with the new connection counted as refused is as fair as before. */
  lemma SeenRefused(v: seq<Entry>, bev: nat, net: Net, l: Limits)
    requires Fair(v, l) && Tracked(v, bev) && !net.gone(bev) && !Get(v, bev).checked && Get(v, bev).resolved
    requires !Get(v, bev).overCap
    requires !Get(v, bev).served
    ensures Fair(Set(Seen(v, bev, net), bev, Get(v, bev).(checked := true, overCap := true)), l)
  {
    var s := Get(v, bev);
    var no := s.(checked := true, overCap := true);
    FairSet(v, bev, no, l);
    SetGet(v, bev, no);
    FairSweptAll(Set(v, bev, no), net.gone, l);
    FairOthers(SweptAll(Set(v, bev, no), net.gone), bev, net, l);
    SameBut(v, bev, net, s.(checked := true), no);
  }

  /** Which fields the judged connection has does not matter to the sweep and to the others. */
  lemma SameBut(v: seq<Entry>, bev: nat, net: Net, s: Status, t: Status)
    requires KeysOnce(v) && !net.gone(bev)
    ensures Set(ResolveOthers(SweptAll(Set(v, bev, s), net.gone), bev, net), bev, t)
         == ResolveOthers(SweptAll(Set(v, bev, t), net.gone), bev, net)
  {
    SweptSet(v, bev, net.gone, s);
    SweptSet(v, bev, net.gone, t);
  }

  lemma {:induction false} SweptSet(v: seq<Entry>, bev: nat, gone: nat -> bool, s: Status)
    requires !gone(bev)
    ensures SweptAll(Set(v, bev, s), gone) == Set(SweptAll(v, gone), bev, s)
    decreases |v|
  {
    if v != [] {
      var last := |v| - 1;
      assert Set(v, bev, s)[..last] == Set(v[..last], bev, s);
      SweptSet(v[..last], bev, gone, s);
    }
  }

  lemma SeenAdmitted(v: seq<Entry>, bev: nat, net: Net, l: Limits)
    requires Fair(v, l) && Tracked(v, bev) && !net.gone(bev) && l.maxPerClient > 0
    requires !Get(v, bev).checked && Get(v, bev).resolved && !Get(v, bev).overCap && !Get(v, bev).served
    requires Peers(Seen(v, bev, net), bev, Get(v, bev).peer) < l.maxPerClient
    ensures Fair(Seen(v, bev, net), l)
  {
    var s, seen := Get(v, bev), Seen(v, bev, net);
    var no := Set(seen, bev, s.(checked := true, overCap := true));
    SeenRefused(v, bev, net, l);
    SeenFacts(v, bev, net);
    forall i | 0 <= i < |seen| ensures seen[i].bev == bev ==> seen[i].s == s.(checked := true) { GetAt(seen, i); }
    assert forall i | 0 <= i < |seen| && seen[i].bev != bev :: no[i] == seen[i] && no[i] in no;
    forall a ensures Admits(seen, a) <= l.maxPerClient {
      var p := (e: Entry) => Admitted(e) && e.s.peer == Ip(a);
      if s.peer == Ip(a) {
        CountButOne(seen, bev, p, (e: Entry) => e.bev != bev && !e.s.overCap && s.peer.Ip? && e.s.peer == s.peer);
      } else {
        CountLe(no, seen, p, p);
        assert Admits(no, a) <= l.maxPerClient;
      }
    }
  }

  /** A judged connection is admitted only within the cap. */
  lemma JudgedFair(v: seq<Entry>, bev: nat, net: Net, l: Limits, drop: bool)
    requires Fair(v, l) && Tracked(v, bev) && Get(v, bev).resolved && (Judges(Get(v, bev), l) ==> !net.gone(bev))
    ensures Fair(Judged(v, bev, net, l, drop).0, l)
    ensures Judged(v, bev, net, l, drop).1 ==> Tracked(Judged(v, bev, net, l, drop).0, bev)
    ensures Judged(v, bev, net, l, drop).1 ==> var s := Get(Judged(v, bev, net, l, drop).0, bev);
      && s.resolved && (l.maxPerClient > 0 ==> s.checked)
      && s.overCap == Get(v, bev).overCap && s.served == Get(v, bev).served
  {
    var s := Get(v, bev);
    var k :| 0 <= k < |v| && v[k].bev == bev;
    GetAt(v, k);
    if !s.checked && l.maxPerClient > 0 {
      SetGet(v, bev, s.(checked := true));
      if s.peer.NoPeer? {
        FairSet(v, bev, s.(checked := true), l);
      } else {
        var seen := Seen(v, bev, net);
        SeenFacts(v, bev, net);
        if Peers(seen, bev, s.peer) < l.maxPerClient {
          SeenAdmitted(v, bev, net, l);
        } else {
          SeenRefused(v, bev, net, l);
          if !drop {
            WithoutSet(seen, bev, s.(checked := true, overCap := true));
            FairWithout(Set(seen, bev, s.(checked := true, overCap := true)), bev, l);
          }
        }
      }
    }
  }

  lemma {:induction false} WithoutSet(v: seq<Entry>, bev: nat, s: Status)
    ensures Without(Set(v, bev, s), bev) == Without(v, bev) || !KeysOnce(v)
    decreases |v|
  {
    if v != [] && KeysOnce(v) {
      assert Set(v, bev, s)[1..] == Set(v[1..], bev, s);
      if v[0].bev == bev {
        assert Set(v, bev, s)[1..] == v[1..];
      } else {
        WithoutSet(v[1..], bev, s);
      }
    }
  }

  lemma ResolvedFair(v: seq<Entry>, bev: nat, s: Status, l: Limits)
    requires Fair(v, l) && Tracked(v, bev) && s.resolved
    requires var t := Get(v, bev);
      && s.checked == t.checked && s.overCap == t.overCap && s.served == t.served
      && (t.resolved ==> s.peer == t.peer)
    ensures Fair(Set(v, bev, s), l) && Tracked(Set(v, bev, s), bev) && Get(Set(v, bev, s), bev) == s
  {
    var k :| 0 <= k < |v| && v[k].bev == bev;
    GetAt(v, k);
    FairSet(v, bev, s, l);
    SetGet(v, bev, s);
  }

  lemma PickedUpFair(v: seq<Entry>, bev: nat, net: Net, l: Limits, watched: bool)
    requires Fair(v, l) && Tracked(v, bev) && Safe(v, bev, net, l)
    ensures Fair(PickedUp(v, bev, net, l, watched), l)
  {
    var e := Resolve(Entry(bev, Get(v, bev)), net);
    FairWithout(v, bev, l);
    if e.s.resolved {
      ResolvedFair(v, bev, e.s, l);
      JudgedFair(Set(v, bev, e.s), bev, net, l, true);
      FairWithout(Judged(Set(v, bev, e.s), bev, net, l, true).0, bev, l);
    }
  }

  /** An admitted connection moves to the head as a served one. */
  lemma ServedFair(v: seq<Entry>, bev: nat, l: Limits)
    requires Fair(v, l) && Tracked(v, bev) && !Get(v, bev).overCap && (l.maxPerClient > 0 ==> Get(v, bev).checked)
    requires Get(v, bev).resolved
    ensures Fair([Entry(bev, Get(v, bev).(served := true))] + Without(v, bev), l)
  {
    var k :| 0 <= k < |v| && v[k].bev == bev;
    GetAt(v, k);
    WithoutAt(v, k);
    MovedFair(v, k, l);
  }

  lemma MovedFair(v: seq<Entry>, k: nat, l: Limits)
    requires Fair(v, l) && k < |v| && !v[k].s.overCap && (l.maxPerClient > 0 ==> v[k].s.checked)
    ensures Fair([v[k].(s := v[k].s.(served := true))] + Cut(v, k), l)
  {
    var e := v[k].(s := v[k].s.(served := true));
    var w := [e] + Cut(v, k);
    assert forall i | 0 < i < |w| :: w[i] == v[if i <= k then i - 1 else i];
    forall a ensures l.maxPerClient > 0 ==> Admits(w, a) <= l.maxPerClient {
      CountMoved(v, k, e, (x: Entry) => Admitted(x) && x.s.peer == Ip(a));
      assert Admits(w, a) == Admits(v, a);
    }
  }

  lemma CountMoved(v: seq<Entry>, k: nat, e: Entry, p: Entry -> bool)
    requires k < |v| && p(e) == p(v[k])
    ensures Count([e] + Cut(v, k), p) == Count(v, p)
  {
    var x, y := v[..k], v[k + 1..];
    CountFront(e, Cut(v, k), p);
    CountConcat(x, y, p);
    CountFront(v[k], y, p);
    CountConcat(x, [v[k]] + y, p);
    assert v == x + ([v[k]] + y);
  }

  lemma RequestedFair(v: seq<Entry>, bev: nat, net: Net, l: Limits)
    requires Fair(v, l) && Safe(v, bev, net, l) && net.known(bev)
    ensures Fair(Requested(v, bev, net, l).0, l)
  {
    if Tracked(v, bev) {
      FairWithout(v, bev, l);
      if !Get(v, bev).overCap { JudgedRequestFair(v, bev, net, l); }
    }
  }

  lemma JudgedRequestFair(v: seq<Entry>, bev: nat, net: Net, l: Limits)
    requires Fair(v, l) && Tracked(v, bev) && !Get(v, bev).overCap && Safe(v, bev, net, l) && net.known(bev)
    ensures Fair(Requested(v, bev, net, l).0, l)
  {
    var s := Asking(v, bev, net);
    ResolvedFair(v, bev, s, l);
    RequestedIs(v, bev, net, l, s);
    AnsweredFair(Set(v, bev, s), bev, net, l);
  }

  /** What a request leaves of a fair list, once its connection is judged. */
  lemma AnsweredFair(v: seq<Entry>, bev: nat, net: Net, l: Limits)
    requires Fair(v, l) && Tracked(v, bev) && Get(v, bev).resolved && !Get(v, bev).overCap
    requires Judges(Get(v, bev), l) ==> !net.gone(bev)
    ensures Fair(AfterJudge(Judged(v, bev, net, l, false), bev, l).0, l)
  {
    JudgedFair(v, bev, net, l, false);
    var (w, admitted) := Judged(v, bev, net, l, false);
    FairWithout(w, bev, l);
    if admitted { ServedFair(w, bev, l); }
  }

  /** No call takes an address over its cap, whichever of the pickup and the request judges first. */
  lemma FairAfter(v: seq<Entry>, call: Call, l: Limits)
    requires Fair(v, l) && Possible(v, call, l)
    ensures Fair(After(v, call, l), l)
  {
    match call
    case Accept(bev, gone, room) =>
      FairSwept(v, gone, l);
      RotatedKeys(v, Budget(v), gone);
      var w := Swept(v, gone);
      forall i | 0 <= i < |w| ensures w[i].bev != bev { assert w[i] in v; }
      if room { FairFront(w, Entry(bev, FRESH), l); } else { assert [] + w == w; }
    case Pickup(bev, net, watched) => if Tracked(v, bev) { PickedUpFair(v, bev, net, l, watched); }
    case Request(bev, net) => RequestedFair(v, bev, net, l);
    case Close(bev) => FairWithout(v, bev, l);
    case Sweep(gone) => FairSwept(v, gone, l);
    case Gate(gone) => FairSweptAll(v, gone, l);
  }

  lemma {:induction false} RunFair(v: seq<Entry>, calls: seq<Call>, l: Limits)
    requires Fair(v, l) && AllPossible(v, calls, l)
    ensures Fair(Run(v, calls, l), l)
    decreases |calls|
  {
    if calls != [] {
      FairAfter(v, calls[0], l);
      RunFair(After(v, calls[0], l), calls[1..], l);
    }
  }

  /** In every run of a worker: at most maxPerClient connections of one address are admitted, and a
      request on a connection the pickup refused is refused. */
  lemma CapHolds(calls: seq<Call>, l: Limits, a: nat, bev: nat, net: Net)
    requires AllPossible([], calls, l) && l.maxPerClient > 0
    ensures var v := Run([], calls, l);
      && Admits(v, a) <= l.maxPerClient
      && (Tracked(v, bev) && Get(v, bev).overCap ==> !Get(v, bev).served && !Requested(v, bev, net, l).1)
  {
    RunFair([], calls, l);
    var v := Run([], calls, l);
    if Tracked(v, bev) {
      var k :| 0 <= k < |v| && v[k].bev == bev;
      GetAt(v, k);
    }
  }

  // ---- a connection that is left alone keeps its fields ----

  /** The connection is tracked, with such fields. */
  predicate Kept(v: seq<Entry>, x: nat, p: Status -> bool) {
    Tracked(v, x) && forall i | 0 <= i < |v| && v[i].bev == x :: p(v[i].s)
  }

  /** The property does not change when a node's peer is looked up. */
  ghost predicate Lasting(p: Status -> bool) {
    forall s: Status, peer: Peer {:trigger p(s.(resolved := true, peer := peer))} ::
      p(s) && !s.resolved ==> p(s.(resolved := true, peer := peer))
  }

  predicate IsOver(s: Status) { s.overCap }

  /** The connection is tracked and marked as refused. */
  predicate Marked(v: seq<Entry>, x: nat) { Kept(v, x, IsOver) }

  /** All but the peer, which may have been looked up since. */
  predicate SameFate(s: Status, base: Status) {
    && s.checked == base.checked && s.served == base.served && s.overCap == base.overCap
    && s.requests == base.requests && (base.resolved ==> s.resolved && s.peer == base.peer)
  }

  lemma KeptGet(v: seq<Entry>, x: nat, p: Status -> bool)
    requires Kept(v, x, p)
    ensures p(Get(v, x))
    decreases |v|
  {
    if v[0].bev != x {
      KeptTail(v, x, p);
      KeptGet(v[1..], x, p);
    }
  }

  lemma KeptTail(v: seq<Entry>, x: nat, p: Status -> bool)
    requires Kept(v, x, p) && v[0].bev != x
    ensures Kept(v[1..], x, p)
  {
    TrackedTail(v, x);
  }

  lemma KeptFront(e: Entry, v: seq<Entry>, x: nat, p: Status -> bool)
    requires Kept(v, x, p) && (e.bev == x ==> p(e.s))
    ensures Kept([e] + v, x, p)
  {
    var i :| 0 <= i < |v| && v[i].bev == x;
    assert ([e] + v)[i + 1].bev == x;
  }

  /** Turning the last entry to the front, or dropping another one, keeps it. */
  lemma KeptLast(v: seq<Entry>, x: nat, p: Status -> bool)
    requires Kept(v, x, p)
    ensures var last := |v| - 1;
      Kept([v[last]] + v[..last], x, p) && (v[last].bev != x ==> Kept(v[..last], x, p))
  {
    var last := |v| - 1;
    var i :| 0 <= i < |v| && v[i].bev == x;
    var w := [v[last]] + v[..last];
    if i == last { assert w[0].bev == x; } else { assert w[i + 1].bev == x && v[..last][i].bev == x; }
  }

  lemma {:induction false} KeptRotated(v: seq<Entry>, n: nat, gone: nat -> bool, x: nat, p: Status -> bool)
    requires Kept(v, x, p) && !gone(x)
    ensures Kept(Rotated(v, n, gone), x, p)
    decreases n
  {
    if n > 0 {
      var last := |v| - 1;
      KeptLast(v, x, p);
      KeptRotated(if Released(v[last], gone) then v[..last] else [v[last]] + v[..last], n - 1, gone, x, p);
    }
  }

  lemma {:induction false} KeptSweptAll(v: seq<Entry>, gone: nat -> bool, x: nat)
    requires !gone(x)
    ensures Tracked(v, x) ==> Tracked(SweptAll(v, gone), x)
    ensures forall e | e in SweptAll(v, gone) :: e in v
    decreases |v|
  {
    if v != [] {
      var last := |v| - 1;
      var w, less := SweptAll(v, gone), SweptAll(v[..last], gone);
      KeptSweptAll(v[..last], gone, x);
      if Tracked(v, x) {
        var i :| 0 <= i < |v| && v[i].bev == x;
        if i == last {
          assert w[|less|].bev == x;
        } else {
          assert v[..last][i].bev == x;
          var j :| 0 <= j < |less| && less[j].bev == x;
          assert w[j].bev == x;
        }
      }
    }
  }

  lemma KeptAmong(v: seq<Entry>, w: seq<Entry>, x: nat, p: Status -> bool)
    requires Kept(v, x, p) && Tracked(w, x) && forall e | e in w :: e in v
    ensures Kept(w, x, p)
  {
    forall i | 0 <= i < |w| && w[i].bev == x ensures p(w[i].s) { assert w[i] in v; }
  }

  lemma {:induction false} TrackedWithout(v: seq<Entry>, b: nat, x: nat)
    requires Tracked(v, x) && b != x
    ensures Tracked(Without(v, b), x)
    decreases |v|
  {
    if v[0].bev == x {
      assert Without(v, b)[0].bev == x;
    } else {
      TrackedTail(v, x);
      if v[0].bev != b {
        TrackedWithout(v[1..], b, x);
        var i :| 0 <= i < |Without(v[1..], b)| && Without(v[1..], b)[i].bev == x;
        assert Without(v, b)[i + 1].bev == x;
      }
    }
  }

  lemma KeptWithout(v: seq<Entry>, b: nat, x: nat, p: Status -> bool)
    requires Kept(v, x, p) && b != x
    ensures Kept(Without(v, b), x, p)
  {
    TrackedWithout(v, b, x);
    WithoutAmong(v, b);
    KeptAmong(v, Without(v, b), x, p);
  }

  lemma {:induction false} WithoutAmong(v: seq<Entry>, b: nat)
    ensures forall e | e in Without(v, b) :: e in v
    decreases |v|
  {
    if v != [] { WithoutAmong(v[1..], b); }
  }

  lemma KeptSet(v: seq<Entry>, b: nat, s: Status, x: nat, p: Status -> bool)
    requires Kept(v, x, p) && b != x
    ensures Kept(Set(v, b, s), x, p)
  {
    var i :| 0 <= i < |v| && v[i].bev == x;
    assert Set(v, b, s)[i].bev == x;
  }

  lemma KeptResolved(v: seq<Entry>, b: nat, net: Net, x: nat, p: Status -> bool)
    requires Lasting(p) && Kept(v, x, p)
    ensures Kept(ResolveOthers(v, b, net), x, p)
  {
    var i :| 0 <= i < |v| && v[i].bev == x;
    assert ResolveOthers(v, b, net)[i].bev == x;
  }

  lemma KeptSeen(v: seq<Entry>, b: nat, net: Net, x: nat, p: Status -> bool)
    requires Lasting(p) && Kept(v, x, p) && !net.gone(x)
    ensures Kept(ResolveOthers(SweptAll(v, net.gone), b, net), x, p)
  {
    KeptSweptAll(v, net.gone, x);
    KeptAmong(v, SweptAll(v, net.gone), x, p);
    KeptResolved(SweptAll(v, net.gone), b, net, x, p);
  }

  lemma KeptJudged(v: seq<Entry>, b: nat, net: Net, l: Limits, drop: bool, x: nat, p: Status -> bool)
    requires Lasting(p) && Kept(v, x, p) && Tracked(v, b) && b != x && !net.gone(x)
    ensures Kept(Judged(v, b, net, l, drop).0, x, p)
  {
    var s := Get(v, b);
    if !s.checked && l.maxPerClient > 0 {
      var marked := Set(v, b, s.(checked := true));
      KeptSet(v, b, s.(checked := true), x, p);
      KeptSeen(marked, b, net, x, p);
      var seen := ResolveOthers(SweptAll(marked, net.gone), b, net);
      KeptSet(seen, b, s.(checked := true, overCap := true), x, p);
      KeptWithout(seen, b, x, p);
    }
  }

  lemma KeptPickedUp(v: seq<Entry>, b: nat, net: Net, l: Limits, watched: bool, x: nat, p: Status -> bool)
    requires Lasting(p) && Kept(v, x, p) && Tracked(v, b) && b != x && !net.gone(x)
    ensures Kept(PickedUp(v, b, net, l, watched), x, p)
  {
    var e := Resolve(Entry(b, Get(v, b)), net);
    KeptWithout(v, b, x, p);
    if e.s.resolved {
      SetTracks(v, b, e.s);
      KeptSet(v, b, e.s, x, p);
      KeptJudged(Set(v, b, e.s), b, net, l, true, x, p);
      KeptWithout(Judged(Set(v, b, e.s), b, net, l, true).0, b, x, p);
    }
  }

  lemma KeptRequested(v: seq<Entry>, b: nat, net: Net, l: Limits, x: nat, p: Status -> bool)
    requires Lasting(p) && Kept(v, x, p) && b != x && !net.gone(x)
    ensures Kept(Requested(v, b, net, l).0, x, p)
  {
    if Tracked(v, b) {
      KeptWithout(v, b, x, p);
      if !Get(v, b).overCap {
        var s := Asking(v, b, net);
        RequestedIs(v, b, net, l, s);
        KeptSet(v, b, s, x, p);
        KeptJudged(Set(v, b, s), b, net, l, false, x, p);
        KeptServed(Judged(Set(v, b, s), b, net, l, false), b, l, x, p);
      }
    }
  }

  lemma KeptServed(judged: (seq<Entry>, bool), b: nat, l: Limits, x: nat, p: Status -> bool)
    requires Kept(judged.0, x, p) && b != x
    ensures Kept(AfterJudge(judged, b, l).0, x, p)
  {
    var w := judged.0;
    KeptWithout(w, b, x, p);
    if Tracked(w, b) { KeptFront(Entry(b, Get(w, b).(served := true)), Without(w, b), x, p); }
  }

  /** The call is about another connection, and evhttp still owns this one. */
  predicate Spares(call: Call, x: nat) {
    match call
    case Accept(b, gone, _) => b != x && !gone(x)
    case Pickup(b, net, _) => b != x && !net.gone(x)
    case Request(b, net) => b != x && !net.gone(x)
    case Close(b) => b != x
    case Sweep(gone) => !gone(x)
    case Gate(gone) => !gone(x)
  }

  lemma KeptAfter(v: seq<Entry>, call: Call, l: Limits, x: nat, p: Status -> bool)
    requires Lasting(p) && Kept(v, x, p) && Spares(call, x)
    ensures Kept(After(v, call, l), x, p)
  {
    match call
    case Accept(b, gone, room) =>
      KeptRotated(v, Budget(v), gone, x, p);
      var w := Swept(v, gone);
      if room { KeptFront(Entry(b, FRESH), w, x, p); } else { assert [] + w == w; }
    case Pickup(b, net, watched) => if Tracked(v, b) { KeptPickedUp(v, b, net, l, watched, x, p); }
    case Request(b, net) => KeptRequested(v, b, net, l, x, p);
    case Close(b) => KeptWithout(v, b, x, p);
    case Sweep(gone) => KeptRotated(v, Budget(v), gone, x, p);
    case Gate(gone) =>
      KeptSweptAll(v, gone, x);
      KeptAmong(v, SweptAll(v, gone), x, p);
  }

  lemma {:induction false} KeptRun(v: seq<Entry>, calls: seq<Call>, l: Limits, x: nat, p: Status -> bool)
    requires Lasting(p) && Kept(v, x, p) && forall i | 0 <= i < |calls| :: Spares(calls[i], x)
    ensures Kept(Run(v, calls, l), x, p)
    decreases |calls|
  {
    if calls != [] {
      assert Spares(calls[0], x);
      KeptAfter(v, calls[0], l, x, p);
      assert forall i | 0 <= i < |calls[1..]| :: Spares(calls[1..][i], x) by {
        forall i | 0 <= i < |calls[1..]| ensures Spares(calls[1..][i], x) { assert calls[1..][i] == calls[i + 1]; }
      }
      KeptRun(After(v, calls[0], l), calls[1..], l, x, p);
    }
  }

  /** The pickup finds the connection over its cap. */
  predicate Refuses(v: seq<Entry>, x: nat, net: Net, l: Limits) {
    && Tracked(v, x)
    && var e := Resolve(Entry(x, Get(v, x)), net);
       && e.s.resolved && Tracked(Set(v, x, e.s), x)
       && !Judged(Set(v, x, e.s), x, net, l, true).1
  }

  /** A refusal marks the connection and keeps it tracked. */
  lemma RefusalMarks(v: seq<Entry>, x: nat, net: Net, l: Limits, watched: bool)
    requires Refuses(v, x, net, l) && !net.gone(x)
    ensures Marked(PickedUp(v, x, net, l, watched), x)
  {
    var e := Resolve(Entry(x, Get(v, x)), net);
    var u := Set(v, x, e.s);
    var s := Get(u, x);
    var marked := Set(u, x, s.(checked := true));
    SetTracks(u, x, s.(checked := true));
    KeptSweptAll(marked, net.gone, x);
    var swept := SweptAll(marked, net.gone);
    var seen := ResolveOthers(swept, x, net);
    var i :| 0 <= i < |swept| && swept[i].bev == x;
    assert seen[i].bev == x;
    SetTracks(seen, x, s.(checked := true, overCap := true));
  }

  /** Whatever happens to other connections, a request on one that the pickup refused is refused, as long as
      evhttp owns it. */
  lemma RefusedStaysRefused(v: seq<Entry>, x: nat, net: Net, l: Limits, watched: bool, calls: seq<Call>, at: Net)
    requires Refuses(v, x, net, l) && !net.gone(x)
    requires forall i | 0 <= i < |calls| :: Spares(calls[i], x)
    ensures var w := Run(After(v, Pickup(x, net, watched), l), calls, l);
      Tracked(w, x) && !Requested(w, x, at, l).1
  {
    RefusalMarks(v, x, net, l, watched);
    KeptRun(After(v, Pickup(x, net, watched), l), calls, l, x, IsOver);
    KeptGet(Run(After(v, Pickup(x, net, watched), l), calls, l), x, IsOver);
  }

  /** Whatever happens to other connections, one that evhttp owns stays tracked, with its fields. */
  lemma LeftAloneStays(v: seq<Entry>, calls: seq<Call>, l: Limits, x: nat)
    requires KeysOnce(v) && Tracked(v, x) && forall i | 0 <= i < |calls| :: Spares(calls[i], x)
    ensures var w := Run(v, calls, l); Tracked(w, x) && SameFate(Get(w, x), Get(v, x))
  {
    var base := Get(v, x);
    var p := (s: Status) => SameFate(s, base);
    forall i | 0 <= i < |v| && v[i].bev == x ensures p(v[i].s) { GetAt(v, i); }
    KeptRun(v, calls, l, x, p);
    KeptGet(Run(v, calls, l), x, p);
  }

  // ---- which requests are answered ----

  /** The other connections of the address that evhttp owns and that were not refused, on the list as it is:
      the sweep and the look-ups of the judgement are still to come. */
  ghost function Rivals(v: seq<Entry>, bev: nat, net: Net, peer: Peer): set<nat> {
    set i: nat | i < |v| && Rival(v[i], bev, net, peer) :: i
  }

  predicate Rival(e: Entry, bev: nat, net: Net, peer: Peer) {
    && e.bev != bev && !e.s.overCap && !Released(e, net.gone)
    && peer.Ip? && PeerNow(e.s, e.bev, net) == peer
  }

  /** Who is at the other end: what was looked up before, or what libevent says now, if it can. */
  function PeerNow(s: Status, bev: nat, net: Net): Peer {
    if !s.resolved && net.known(bev) then net.peer(bev) else s.peer
  }

  ghost function Where(v: seq<Entry>, p: Entry -> bool): set<nat> { set i: nat | i < |v| && p(v[i]) }

  /** Counting is counting. */
  lemma {:induction false} CountIsSize(v: seq<Entry>, p: Entry -> bool)
    ensures Count(v, p) == |Where(v, p)|
    decreases |v|
  {
    if v == [] {
      assert Where(v, p) == {};
    } else {
      var last := |v| - 1;
      CountIsSize(v[..last], p);
      CountConcat(v[..last], [v[last]], p);
      assert v == v[..last] + [v[last]];
      WhereLast(v, p);
    }
  }

  lemma WhereLast(v: seq<Entry>, p: Entry -> bool)
    requires v != []
    ensures var last := |v| - 1;
      |Where(v, p)| == |Where(v[..last], p)| + if p(v[last]) then 1 else 0
  {
    var last := |v| - 1;
    assert forall i: nat | i < last :: v[..last][i] == v[i];
    assert Where(v, p) == Where(v[..last], p) + if p(v[last]) then {last} else {};
  }

  /** Sweeping and looking up first, then counting, finds the rivals. */
  lemma {:induction false} SeenCount(v: seq<Entry>, bev: nat, net: Net, peer: Peer)
    ensures Peers(ResolveOthers(SweptAll(v, net.gone), bev, net), bev, peer)
         == Count(v, (e: Entry) => Rival(e, bev, net, peer))
    decreases |v|
  {
    var p := (e: Entry) => e.bev != bev && !e.s.overCap && peer.Ip? && e.s.peer == peer;
    var q := (e: Entry) => Rival(e, bev, net, peer);
    if v != [] {
      var last := |v| - 1;
      var front, e := v[..last], v[last];
      SeenCount(front, bev, net, peer);
      CountConcat(front, [e], q);
      assert v == front + [e];
      var kept: seq<Entry> := if Released(e, net.gone) then [] else [e];
      var swept := SweptAll(front, net.gone);
      assert ResolveOthers(swept + kept, bev, net) == ResolveOthers(swept, bev, net) + ResolveOthers(kept, bev, net);
      CountConcat(ResolveOthers(swept, bev, net), ResolveOthers(kept, bev, net), p);
      OneCounts(e, bev, net, peer, p, q);
    }
  }

  lemma OneCounts(e: Entry, bev: nat, net: Net, peer: Peer, p: Entry -> bool, q: Entry -> bool)
    requires p == ((e: Entry) => e.bev != bev && !e.s.overCap && peer.Ip? && e.s.peer == peer)
    requires forall e: Entry :: q(e) <==> Rival(e, bev, net, peer)
    ensures Count(ResolveOthers([e], bev, net), p) ==
      if e.bev != bev && !e.s.overCap && peer.Ip? && Resolve(e, net).s.peer == peer then 1 else 0
    ensures Count([e], q) == if Rival(e, bev, net, peer) then 1 else 0
  {
  }

  lemma RivalsCount(v: seq<Entry>, bev: nat, net: Net, peer: Peer)
    ensures Peers(ResolveOthers(SweptAll(v, net.gone), bev, net), bev, peer) == |Rivals(v, bev, net, peer)|
  {
    var q := (e: Entry) => Rival(e, bev, net, peer);
    SeenCount(v, bev, net, peer);
    CountIsSize(v, q);
    assert Rivals(v, bev, net, peer) == Where(v, q);
  }

  /** The node's own fields do not make it a rival. */
  lemma RivalsSet(v: seq<Entry>, bev: nat, s: Status, net: Net, peer: Peer)
    ensures Rivals(Set(v, bev, s), bev, net, peer) == Rivals(v, bev, net, peer)
  {
    assert forall i: nat | i < |v| ::
      Rival(Set(v, bev, s)[i], bev, net, peer) <==> Rival(v[i], bev, net, peer);
  }

  /** The verdict of a judgement, from the list as it was. */
  lemma JudgedIff(v: seq<Entry>, bev: nat, net: Net, l: Limits, drop: bool)
    requires Tracked(v, bev)
    ensures var s := Get(v, bev);
      Judged(v, bev, net, l, drop).1 <==>
        s.checked || l.maxPerClient == 0 || s.peer.NoPeer? || |Rivals(v, bev, net, s.peer)| < l.maxPerClient
  {
    var s := Get(v, bev);
    var marked := Set(v, bev, s.(checked := true));
    RivalsCount(marked, bev, net, s.peer);
    RivalsSet(v, bev, s.(checked := true), net, s.peer);
  }

  /** A request is answered if and only if its connection is not tracked, or was not refused and: was judged
      before, there is no cap, it has no peer, or fewer others of its address count than the cap allows. */
  lemma AnsweredIff(v: seq<Entry>, bev: nat, net: Net, l: Limits)
    requires KeysOnce(v)
    ensures Requested(v, bev, net, l).1 <==>
      || !Tracked(v, bev)
      || (!Get(v, bev).overCap &&
          var peer := PeerNow(Get(v, bev), bev, net);
          || Get(v, bev).checked || l.maxPerClient == 0 || peer.NoPeer?
          || |Rivals(v, bev, net, peer)| < l.maxPerClient)
  {
    if Tracked(v, bev) && !Get(v, bev).overCap {
      var s := Asking(v, bev, net);
      RequestedIs(v, bev, net, l, s);
      SetGet(v, bev, s);
      JudgedIff(Set(v, bev, s), bev, net, l, false);
      RivalsSet(v, bev, s, net, s.peer);
    }
  }

  /** A judgement that admits keeps the node, judged. */
  lemma AdmittedStays(v: seq<Entry>, bev: nat, net: Net, l: Limits, drop: bool)
    requires KeysOnce(v) && Tracked(v, bev) && (Judges(Get(v, bev), l) ==> !net.gone(bev))
    requires Judged(v, bev, net, l, drop).1
    ensures var w := Judged(v, bev, net, l, drop).0;
      Tracked(w, bev) && Get(w, bev) == Get(v, bev).(checked := Get(v, bev).checked || l.maxPerClient > 0)
  {
    var s := Get(v, bev);
    if !s.checked && l.maxPerClient > 0 {
      var t := s.(checked := true);
      var p := (x: Status) => x == t;
      SetGet(v, bev, t);
      SetAll(v, bev, t);
      if !s.peer.NoPeer? { KeptOwn(Set(v, bev, t), bev, net, t); }
    }
  }

  lemma SetAll(v: seq<Entry>, bev: nat, t: Status)
    requires Tracked(v, bev)
    ensures Kept(Set(v, bev, t), bev, (x: Status) => x == t)
  {
    SetTracks(v, bev, t);
  }

  /** The sweep and the look-ups of others leave the judged node as it is. */
  lemma KeptOwn(v: seq<Entry>, bev: nat, net: Net, t: Status)
    requires Kept(v, bev, (x: Status) => x == t) && !net.gone(bev)
    ensures var w := ResolveOthers(SweptAll(v, net.gone), bev, net); Tracked(w, bev) && Get(w, bev) == t
  {
    var p := (x: Status) => x == t;
    var swept := SweptAll(v, net.gone);
    KeptSweptAll(v, net.gone, bev);
    KeptAmong(v, swept, bev, p);
    var w := ResolveOthers(swept, bev, net);
    var i :| 0 <= i < |swept| && swept[i].bev == bev;
    assert w[i].bev == bev;
    KeptGet(w, bev, p);
  }

  /** First on the list, served, with so many requests. */
  predicate ServedFirst(w: seq<Entry>, bev: nat, requests: nat, checked: bool) {
    && w != [] && w[0].bev == bev && w[0].s.served && !w[0].s.overCap
    && w[0].s.requests == requests && w[0].s.checked == checked
  }

  lemma AdmittedFirst(judged: (seq<Entry>, bool), bev: nat, l: Limits)
    requires judged.1 && Tracked(judged.0, bev) && !Get(judged.0, bev).overCap && (l.trackLive || Limited(l))
    ensures ServedFirst(AfterJudge(judged, bev, l).0, bev, Get(judged.0, bev).requests, Get(judged.0, bev).checked)
  {
  }

  lemma AdmittedIsAnswered(v: seq<Entry>, bev: nat, net: Net, l: Limits)
    requires Tracked(v, bev) && Requested(v, bev, net, l).1
    ensures !Get(v, bev).overCap && Tracked(Set(v, bev, Asking(v, bev, net)), bev)
    ensures Judged(Set(v, bev, Asking(v, bev, net)), bev, net, l, false).1
  {
    SetTracks(v, bev, Asking(v, bev, net));
  }

  /** Under a limit, or when the live count is shown, a connection whose request is answered is first on the
      list, served, and has one request more. */
  lemma AnsweredFirst(v: seq<Entry>, bev: nat, net: Net, l: Limits)
    requires KeysOnce(v) && Tracked(v, bev) && Requested(v, bev, net, l).1 && Safe(v, bev, net, l)
    requires l.trackLive || l.maxConnections > 0 || l.maxPerClient > 0
    ensures ServedFirst(Requested(v, bev, net, l).0, bev, Get(v, bev).requests + 1,
                        Get(v, bev).checked || l.maxPerClient > 0)
  {
    var s := Asking(v, bev, net);
    AdmittedIsAnswered(v, bev, net, l);
    RequestedIs(v, bev, net, l, s);
    JudgedAsking(v, bev, net, l);
    AdmittedFirst(Judged(Set(v, bev, s), bev, net, l, false), bev, l);
  }

  /** Otherwise it is forgotten. */
  lemma AnsweredForgotten(v: seq<Entry>, bev: nat, net: Net, l: Limits)
    requires KeysOnce(v) && Requested(v, bev, net, l).1
    requires !l.trackLive && l.maxConnections == 0 && l.maxPerClient == 0
    ensures !Tracked(Requested(v, bev, net, l).0, bev)
  {
    if Tracked(v, bev) {
      var s := Asking(v, bev, net);
      RequestedIs(v, bev, net, l, s);
      KeysSet(v, bev, s);
      WithoutKeys(Set(v, bev, s), bev);
    }
  }

  lemma JudgedAsking(v: seq<Entry>, bev: nat, net: Net, l: Limits)
    requires KeysOnce(v) && Tracked(v, bev) && !Get(v, bev).overCap && Safe(v, bev, net, l)
    ensures var s := Asking(v, bev, net);
      && Tracked(Set(v, bev, s), bev)
      && var (w, admitted) := Judged(Set(v, bev, s), bev, net, l, false);
         admitted ==> Tracked(w, bev) && Get(w, bev) == s.(checked := s.checked || l.maxPerClient > 0)
  {
    var s := Asking(v, bev, net);
    SetGet(v, bev, s);
    KeysSet(v, bev, s);
    if Judged(Set(v, bev, s), bev, net, l, false).1 { AdmittedStays(Set(v, bev, s), bev, net, l, false); }
  }

  lemma KeysSet(v: seq<Entry>, bev: nat, s: Status)
    requires KeysOnce(v)
    ensures KeysOnce(Set(v, bev, s))
  {
  }

  /** What the pickup makes of a connection: one without a descriptor is forgotten; one of which as many others
      count as the cap allows is marked; another stays, unmarked, if it can be watched. */
  lemma PickupIff(v: seq<Entry>, bev: nat, net: Net, l: Limits, watched: bool)
    requires KeysOnce(v) && Tracked(v, bev) && Safe(v, bev, net, l)
    ensures var s, peer := Get(v, bev), PeerNow(Get(v, bev), bev, net);
      var w := PickedUp(v, bev, net, l, watched);
      if !s.resolved && !net.known(bev) then !Tracked(w, bev)
      else if !s.checked && l.maxPerClient > 0 && !peer.NoPeer? && |Rivals(v, bev, net, peer)| >= l.maxPerClient then
        Tracked(w, bev) && Get(w, bev).overCap
      else if watched then
        && Tracked(w, bev) && Get(w, bev).resolved && Get(w, bev).peer == peer
        && Get(w, bev).overCap == s.overCap && (l.maxPerClient > 0 ==> Get(w, bev).checked)
      else !Tracked(w, bev)
  {
    var s := Resolve(Entry(bev, Get(v, bev)), net).s;
    if !s.resolved {
      WithoutKeys(v, bev);
    } else {
      var u := Set(v, bev, s);
      SetGet(v, bev, s);
      KeysSet(v, bev, s);
      JudgedIff(u, bev, net, l, true);
      RivalsSet(v, bev, s, net, s.peer);
      if Judged(u, bev, net, l, true).1 {
        AdmittedStays(u, bev, net, l, true);
        KeysJudged(u, bev, net, l, true);
        WithoutKeys(Judged(u, bev, net, l, true).0, bev);
      } else {
        RefusalMarks(v, bev, net, l, watched);
        KeptGet(PickedUp(v, bev, net, l, watched), bev, IsOver);
      }
    }
  }

  lemma KeysJudged(v: seq<Entry>, bev: nat, net: Net, l: Limits, drop: bool)
    requires KeysOnce(v) && Tracked(v, bev)
    ensures KeysOnce(Judged(v, bev, net, l, drop).0)
  {
    var s := Get(v, bev);
    var marked := Set(v, bev, s.(checked := true));
    KeysSet(v, bev, s.(checked := true));
    SweptAllKeys(marked, net.gone);
    var seen := ResolveOthers(SweptAll(marked, net.gone), bev, net);
    assert KeysOnce(seen);
    KeysSet(seen, bev, s.(checked := true, overCap := true));
    WithoutKeys(seen, bev);
  }

  /** Off the list it would be answered: a close of its node in between. */
  lemma ForgottenIsAnswered(v: seq<Entry>, x: nat, l: Limits, at: Net)
    requires KeysOnce(v)
    ensures Requested(After(v, Close(x), l), x, at, l).1
  {
    WithoutKeys(v, x);
  }

  // ---- a connection that is over is collected in time ----

  /** x is off the list, or at most k nodes are behind it and the sweeps may release it. */
  ghost predicate Within(v: seq<Entry>, x: nat, k: int) {
    && KeysOnce(v)
    && (Tracked(v, x) ==> exists j: nat :: j <= k && Waits(v, x, j))
  }

  predicate Waits(v: seq<Entry>, x: nat, j: nat) {
    Behind(v, x, j) && (v[|v| - 1 - j].s.served || v[|v| - 1 - j].s.resolved)
  }

  lemma SweptWithin(v: seq<Entry>, gone: nat -> bool, x: nat, k: int)
    requires Within(v, x, k) && gone(x)
    ensures Within(Swept(v, gone), x, k - SWEEP_MAX)
  {
    if Tracked(v, x) {
      var j: nat :| j <= k && Waits(v, x, j);
      RotationReaches(v, Budget(v), gone, x, j);
      if j >= SWEEP_MAX { assert Waits(Swept(v, gone), x, j - SWEEP_MAX); }
    } else {
      RotationWithout(v, Budget(v), gone, x);
    }
  }

  lemma CutWithin(v: seq<Entry>, i: nat, x: nat, k: int)
    requires Within(v, x, k) && i < |v|
    ensures Within(Cut(v, i), x, k)
  {
    var w := Cut(v, i);
    if Tracked(w, x) {
      var j: nat :| j <= k && Waits(v, x, j);
      var at := |v| - 1 - j;
      if i < at { assert Waits(w, x, j); } else if i > at { assert Waits(w, x, j - 1); }
    }
  }

  lemma WithoutWithin(v: seq<Entry>, bev: nat, x: nat, k: int)
    requires Within(v, x, k)
    ensures Within(Without(v, bev), x, k)
  {
    if Tracked(v, bev) {
      var i :| 0 <= i < |v| && v[i].bev == bev;
      WithoutAt(v, i);
      CutWithin(v, i, x, k);
    } else {
      WithoutNone(v, bev);
    }
  }

  lemma {:induction false} WithoutNone(v: seq<Entry>, bev: nat)
    requires forall i | 0 <= i < |v| :: v[i].bev != bev
    ensures Without(v, bev) == v
    decreases |v|
  {
    if v != [] { WithoutNone(v[1..], bev); }
  }

  lemma FrontWithin(v: seq<Entry>, e: Entry, x: nat, k: int)
    requires Within(v, x, k) && e.bev != x && !Tracked(v, e.bev)
    ensures Within([e] + v, x, k)
  {
    var w := [e] + v;
    if Tracked(w, x) {
      var i :| 0 <= i < |w| && w[i].bev == x;
      assert v[i - 1].bev == x && Tracked(v, x);
      var j: nat :| j <= k && Waits(v, x, j);
      assert w[|w| - 1 - j] == v[|v| - 1 - j];
      assert Waits(w, x, j);
    }
  }

  lemma SweptAllWithin(v: seq<Entry>, gone: nat -> bool, x: nat, k: int)
    requires Within(v, x, k) && gone(x)
    ensures KeysOnce(SweptAll(v, gone)) && !Tracked(SweptAll(v, gone), x)
  {
    SweptAllKeys(v, gone);
    if Tracked(v, x) {
      var j: nat :| j <= k && Waits(v, x, j);
      forall e | e in v && e.bev == x ensures Released(e, gone) { assert e == v[|v| - 1 - j]; }
    }
    forall i | 0 <= i < |SweptAll(v, gone)| ensures SweptAll(v, gone)[i].bev != x {
      assert SweptAll(v, gone)[i] in v;
    }
  }

  /** Fields change, keys stay where they are. */
  lemma SameKeysWithin(v: seq<Entry>, w: seq<Entry>, x: nat, k: int)
    requires Within(v, x, k) && |v| == |w| && forall i | 0 <= i < |v| :: w[i].bev == v[i].bev
    requires forall i | 0 <= i < |v| && v[i].bev == x && (v[i].s.served || v[i].s.resolved) ::
        w[i].s.served || w[i].s.resolved
    ensures Within(w, x, k)
  {
    if Tracked(w, x) {
      var i :| 0 <= i < |w| && w[i].bev == x;
      assert v[i].bev == x && Tracked(v, x);
      var j: nat :| j <= k && Waits(v, x, j);
      assert Waits(w, x, j);
    }
  }

  lemma JudgedWithin(v: seq<Entry>, bev: nat, net: Net, l: Limits, drop: bool, x: nat, k: int)
    requires Within(v, x, k) && Tracked(v, bev) && net.gone(x) && (bev == x ==> !Judges(Get(v, bev), l))
    ensures Within(Judged(v, bev, net, l, drop).0, x, k)
  {
    var s := Get(v, bev);
    SetWithin(v, bev, s.(checked := true), x, k);
    if Judges(s, l) { SeenWithin(v, bev, net, l, x, k); }
  }

  /** Writing a node's fields leaves it where it is. */
  lemma SetWithin(v: seq<Entry>, bev: nat, s: Status, x: nat, k: int)
    requires Within(v, x, k) && Tracked(v, bev)
    requires var t := Get(v, bev); t.served || t.resolved ==> s.served || s.resolved
    ensures Within(Set(v, bev, s), x, k)
  {
    forall i | 0 <= i < |v| ensures v[i].bev == bev ==> Get(v, bev) == v[i].s { GetAt(v, i); }
    SameKeysWithin(v, Set(v, bev, s), x, k);
  }

  lemma SeenWithin(v: seq<Entry>, bev: nat, net: Net, l: Limits, x: nat, k: int)
    requires Within(v, x, k) && Tracked(v, bev) && bev != x && net.gone(x)
    ensures var s := Get(v, bev);
      var seen := ResolveOthers(SweptAll(Set(v, bev, s.(checked := true)), net.gone), bev, net);
      && Within(seen, x, k) && Within(Set(seen, bev, s.(checked := true, overCap := true)), x, k)
      && Within(Without(seen, bev), x, k)
  {
    var s := Get(v, bev);
    var marked := Set(v, bev, s.(checked := true));
    SameKeysWithin(v, marked, x, k);
    SweptAllWithin(marked, net.gone, x, k);
    var swept := SweptAll(marked, net.gone);
    var seen := ResolveOthers(swept, bev, net);
    SameKeysWithin(swept, seen, x, k);
    SameKeysWithin(seen, Set(seen, bev, s.(checked := true, overCap := true)), x, k);
    WithoutWithin(seen, bev, x, k);
  }

  lemma PickedUpWithin(v: seq<Entry>, bev: nat, net: Net, l: Limits, watched: bool, x: nat, k: int)
    requires Within(v, x, k) && Tracked(v, bev) && net.gone(x) && Safe(v, bev, net, l)
    ensures Within(PickedUp(v, bev, net, l, watched), x, k)
  {
    WithoutWithin(v, bev, x, k);
    var e := Resolve(Entry(bev, Get(v, bev)), net);
    if !e.s.resolved { return; }
    SetWithin(v, bev, e.s, x, k);
    SetGet(v, bev, e.s);
    JudgedWithin(Set(v, bev, e.s), bev, net, l, true, x, k);
    WithoutWithin(Judged(Set(v, bev, e.s), bev, net, l, true).0, bev, x, k);
  }

  lemma RequestedWithin(v: seq<Entry>, bev: nat, net: Net, l: Limits, x: nat, k: int)
    requires Within(v, x, k) && bev != x && net.gone(x)
    ensures Within(Requested(v, bev, net, l).0, x, k)
  {
    if Tracked(v, bev) {
      WithoutWithin(v, bev, x, k);
      if !Get(v, bev).overCap { JudgedRequestWithin(v, bev, net, l, x, k); }
    }
  }

  lemma JudgedRequestWithin(v: seq<Entry>, bev: nat, net: Net, l: Limits, x: nat, k: int)
    requires Within(v, x, k) && Tracked(v, bev) && !Get(v, bev).overCap && bev != x && net.gone(x)
    ensures Within(Requested(v, bev, net, l).0, x, k)
  {
    var s := Asking(v, bev, net);
    SameKeysWithin(v, Set(v, bev, s), x, k);
    RequestedIs(v, bev, net, l, s);
    JudgedWithin(Set(v, bev, s), bev, net, l, false, x, k);
    var w := Judged(Set(v, bev, s), bev, net, l, false).0;
    WithoutWithin(w, bev, x, k);
    WithoutKeys(w, bev);
    if Tracked(w, bev) { FrontWithin(Without(w, bev), Entry(bev, Get(w, bev).(served := true)), x, k); }
  }

  /** evhttp has let go of x: every call finds it gone, it makes no request, and its address is not reused. */
  predicate Over(call: Call, x: nat) {
    match call
    case Accept(bev, gone, _) => bev != x && gone(x)
    case Pickup(_, net, _) => net.gone(x)
    case Request(bev, net) => bev != x && net.gone(x)
    case Close(_) => true
    case Sweep(gone) => gone(x)
    case Gate(gone) => gone(x)
  }

  predicate Sweeping(call: Call) { call.Accept? || call.Sweep? }

  function Sweeps(calls: seq<Call>): nat {
    if calls == [] then 0 else (if Sweeping(calls[0]) then 1 else 0) + Sweeps(calls[1..])
  }

  lemma AfterWithin(v: seq<Entry>, call: Call, l: Limits, x: nat, k: int)
    requires Within(v, x, k) && Possible(v, call, l) && Over(call, x)
    ensures Within(After(v, call, l), x, if Sweeping(call) then k - SWEEP_MAX else k)
  {
    match call
    case Accept(bev, gone, room) =>
      SweptWithin(v, gone, x, k);
      RotatedKeys(v, Budget(v), gone);
      var w := Swept(v, gone);
      forall i | 0 <= i < |w| ensures w[i].bev != bev { assert w[i] in v; }
      if room { FrontWithin(w, Entry(bev, FRESH), x, k - SWEEP_MAX); } else { assert [] + w == w; }
    case Pickup(bev, net, watched) => if Tracked(v, bev) { PickedUpWithin(v, bev, net, l, watched, x, k); }
    case Request(bev, net) => RequestedWithin(v, bev, net, l, x, k);
    case Close(bev) => WithoutWithin(v, bev, x, k);
    case Sweep(gone) => SweptWithin(v, gone, x, k);
    case Gate(gone) => SweptAllWithin(v, gone, x, k);
  }

  lemma {:induction false} RunWithin(v: seq<Entry>, calls: seq<Call>, l: Limits, x: nat, k: int)
    requires Within(v, x, k) && AllPossible(v, calls, l) && forall i | 0 <= i < |calls| :: Over(calls[i], x)
    ensures Within(Run(v, calls, l), x, k - SWEEP_MAX * Sweeps(calls))
    decreases |calls|
  {
    if calls != [] {
      AfterWithin(v, calls[0], l, x, k);
      RunWithin(After(v, calls[0], l), calls[1..], l, x, if Sweeping(calls[0]) then k - SWEEP_MAX else k);
    }
  }

  /** Whatever accepts, requests and closes happen in between, a connection evhttp has let go of, with k
      nodes behind it, is collected once 32 times the sweeps exceed k. */
  lemma CollectedInTime(v: seq<Entry>, calls: seq<Call>, l: Limits, x: nat, k: nat)
    requires KeysOnce(v) && Waits(v, x, k) && AllPossible(v, calls, l)
    requires forall i | 0 <= i < |calls| :: Over(calls[i], x)
    requires SWEEP_MAX * Sweeps(calls) > k
    ensures !Tracked(Run(v, calls, l), x)
  {
    RunWithin(v, calls, l, x, k);
  }
}
