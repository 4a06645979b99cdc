/**
 The http-direct worker's connection tracker as it lies in memory: nodes on a doubly linked list, on
 the chains of a hash index keyed by their bufferevents, and counted in `live`.
 */
module ConnTracker {
  import opened Shared
  import opened TrackerSpec

  const INITIAL_BUCKETS := 64

  class Node {
    const bev: nat
    var s: Status
    var next: Node?
    var prev: Node?
    var hashNext: Node?

    constructor (bev: nat)
      ensures this.bev == bev && s == FRESH && next == null && prev == null && hashNext == null
    {
      this.bev := bev;
      s := FRESH;
      next, prev, hashNext := null, null, null;
    }
  }

  ghost predicate Distinct(o: seq<Node>) { forall i, j | 0 <= i < j < |o| :: o[i] != o[j] }

  /** The chain of nodes that starts at `head`. */
  ghost predicate Chain(head: Node?, ch: seq<Node>)
    reads ch`hashNext
  {
    && head == (if |ch| == 0 then null else ch[0])
    && (forall i {:trigger ch[i].hashNext} | 0 <= i < |ch| ::
        ch[i].hashNext == if i == |ch| - 1 then null else ch[i + 1])
  }

  /** Guarded propositions are passed on as a whole; `assert LookAt(p, 0)` looks inside those of part p. */
  datatype Part = Index | List | Mirror | Cover | Plan

  predicate LookAt(p: Part, n: nat) { true }

  /** These nodes show these entries, each key once. */
  ghost predicate Mirrors(o: seq<Node>, v: seq<Entry>)
    reads o`s
  {
    && |v| == |o| && KeysOnce(v)
    && forall i | 0 <= i < |o| :: v[i].bev == o[i].bev && v[i].s == o[i].s
  }

  ghost predicate Mirrored(o: seq<Node>, v: seq<Entry>)
    reads o`s
  {
    |v| == |o| && forall n: nat {:trigger LookAt(Mirror, n)} :: LookAt(Mirror, n) ==> Mirrors(o, v)
  }

  /** The set holds the nodes of the list. */
  ghost predicate Covers(o: seq<Node>, m: set<Node>) {
    forall n: nat {:trigger LookAt(Cover, n)} :: LookAt(Cover, n) ==>
      (forall x | x in o :: x in m) && (forall x | x in m :: x in o)
  }

  class Tracker {
    const hash: nat -> nat
    var list: Node?
    var tail: Node?
    var buckets: array<Node?>     // its length is the bucket count, a power of two or 0
    var live: nat
    ghost var order: seq<Node>
    ghost var chains: seq<seq<Node>>
    ghost var view: seq<Entry>    // the list as its entries
    ghost var members: set<Node>  // the nodes on the list

    function Bucket(bev: nat, count: nat): (b: nat)
      requires count > 0
      ensures b < count
    {
      hash(bev) % count
    }

    ghost predicate Linked()
      reads this`list, this`tail, this`order, order`next, order`prev
    {
      && list == (if |order| == 0 then null else order[0])
      && tail == (if |order| == 0 then null else order[|order| - 1])
      && (forall i {:trigger order[i].prev} | 0 <= i < |order| ::
          order[i].prev == if i == 0 then null else order[i - 1])
      && (forall i {:trigger order[i].next} | 0 <= i < |order| ::
          order[i].next == if i == |order| - 1 then null else order[i + 1])
    }

    /** The pointers spell out `order`. */
    ghost predicate Ordered()
      reads this`list, this`tail, this`order, order`next, order`prev
    {
      forall n: nat {:trigger LookAt(List, n)} :: LookAt(List, n) ==> Distinct(order) && Linked()
    }

    /** The list, the index and `live` describe the same set of nodes, each key once. */
    ghost predicate Valid()
      reads this, buckets, order, members
    {
      Ordered() && Mirrored(order, view) && Covers(order, members) && live == |order| && Indexed(members)
    }

    constructor (hash: nat -> nat)
      ensures Valid() && view == []
    {
      this.hash := hash;
      list, tail, live, order, chains, view, members := null, null, 0, [], [], [], {};
      buckets := new Node?[0](_ => null);
    }

    // ---- the list ----

    method Unlink(c: Node, ghost k: nat)
      requires Ordered() && k < |order| && order[k] == c
      modifies this`list, this`tail, this`order, order`next, order`prev
      ensures order == Cut(old(order), k)
      ensures Ordered() && c.next == null && c.prev == null
    {
      assert LookAt(List, 0);
      assert c.prev == (if k == 0 then null else order[k - 1]);
      assert c.next == (if k == |order| - 1 then null else order[k + 1]);
      if c.prev != null {
        c.prev.next := c.next;
      } else {
        list := c.next;
      }
      if c.next != null {
        c.next.prev := c.prev;
      } else {
        tail := c.prev;
      }
      c.next := null;
      c.prev := null;
      order := Cut(order, k);
    }

    method LinkFront(c: Node)
      requires Ordered() && c !in order
      modifies this`list, this`tail, this`order, order`next, order`prev, c`next, c`prev
      ensures order == [c] + old(order)
      ensures Ordered()
    {
      assert LookAt(List, 0);
      c.prev := null;
      c.next := list;
      if list != null {
        list.prev := c;
      } else {
        tail := c;
      }
      list := c;
      order := [c] + order;
    }

    // ---- the index ----

    /** The chains hold exactly the nodes m, each once and on the chain of its bucket. */
    ghost predicate Holds(chs: seq<seq<Node>>, m: set<Node>) {
      && (forall b, i | 0 <= b < |chs| && 0 <= i < |chs[b]| :: chs[b][i] in m && Bucket(chs[b][i].bev, |chs|) == b)
      && (forall b | 0 <= b < |chs| :: Distinct(chs[b]))
      && (forall n: Node | n in m :: |chs| > 0 && n in chs[Bucket(n.bev, |chs|)])
    }

    /** The bucket array t shows these chains, and they hold exactly the nodes m. */
    ghost predicate Shows(t: array<Node?>, chs: seq<seq<Node>>, m: set<Node>)
      reads t, m`hashNext
    {
      && Holds(chs, m)
      && t.Length == |chs|
      && (forall b | 0 <= b < |chs| :: Chain(t[b], chs[b]))
    }

    ghost predicate Keeps(t: array<Node?>, chs: seq<seq<Node>>, m: set<Node>)
      reads t, m`hashNext
    {
      forall n: nat {:trigger LookAt(Index, n)} :: LookAt(Index, n) ==> Shows(t, chs, m)
    }

    ghost predicate Indexed(m: set<Node>)
      reads this`buckets, buckets, this`chains, m`hashNext
    {
      Keeps(buckets, chains, m)
    }

    lemma HoldsLess(chs: seq<seq<Node>>, m: set<Node>, b: nat, i: nat)
      requires Holds(chs, m) && b < |chs| && i < |chs[b]|
      ensures Holds(chs[b := Cut(chs[b], i)], m - {chs[b][i]})
    {
      var less := chs[b := Cut(chs[b], i)];
      CutMembers(chs[b], i);
      forall d, j | 0 <= d < |less| && 0 <= j < |less[d]|
        ensures less[d][j] in m - {chs[b][i]} && Bucket(less[d][j].bev, |less|) == d
      {
        assert less[d][j] in chs[d];
      }
    }

    lemma HoldsMore(chs: seq<seq<Node>>, m: set<Node>, c: Node)
      requires Holds(chs, m) && c !in m && |chs| > 0
      ensures var b := Bucket(c.bev, |chs|); Holds(chs[b := [c] + chs[b]], m + {c})
    {
    }

    /** The node with this key, or null when no indexed node has it. */
    method Find(bev: nat, ghost m: set<Node>) returns (c: Node?)
      requires Indexed(m)
      ensures c != null ==> c in m && c.bev == bev
      ensures c == null ==> forall n: Node | n in m :: n.bev != bev
    {
      assert LookAt(Index, 0);
      if buckets.Length == 0 {
        return null;
      }
      ghost var ch := chains[Bucket(bev, buckets.Length)];
      ghost var i := 0;
      c := buckets[Bucket(bev, buckets.Length)];
      while c != null
        invariant i <= |ch| && c == if i == |ch| then null else ch[i]
        invariant forall j | 0 <= j < i :: ch[j].bev != bev
        decreases |ch| - i
      {
        if c.bev == bev {
          return;
        }
        c := c.hashNext;
        i := i + 1;
      }
    }

    /** Puts a node at the head of its chain. */
    method Hang(t: array<Node?>, c: Node, ghost chs: seq<seq<Node>>, ghost m: set<Node>)
      returns (ghost out: seq<seq<Node>>)
      requires Keeps(t, chs, m) && c !in m && t.Length > 0
      modifies t, c`hashNext
      ensures Keeps(t, out, m + {c})
    {
      assert LookAt(Index, 0);
      var b := Bucket(c.bev, t.Length);
      c.hashNext := t[b];
      t[b] := c;
      HoldsMore(chs, m, c);
      out := chs[b := [c] + chs[b]];
    }

    /** The node in front of c on its chain, or null when c is the head. */
    method Locate(c: Node, ghost m: set<Node>) returns (before: Node?, ghost i: nat)
      requires Indexed(m) && c in m
      ensures |chains| > 0
      ensures var ch := chains[Bucket(c.bev, |chains|)];
        i < |ch| && ch[i] == c && before == if i == 0 then null else ch[i - 1]
    {
      assert LookAt(Index, 0);
      var b := Bucket(c.bev, buckets.Length);
      ghost var ch := chains[b];
      assert c in ch;
      i := 0;
      before := null;
      var at := buckets[b];
      while at != null && at != c
        invariant i <= |ch| && at == (if i == |ch| then null else ch[i])
        invariant before == (if i == 0 then null else ch[i - 1])
        invariant c !in ch[..i]
        decreases |ch| - i
      {
        before := at;
        at := at.hashNext;
        i := i + 1;
      }
    }

    /** Takes a node off a chain; `head` is the chain's new head. */
    method Splice(c: Node, before: Node?, first: Node?, ghost ch: seq<Node>, ghost i: nat) returns (head: Node?)
      requires Chain(first, ch) && Distinct(ch) && i < |ch| && ch[i] == c
      requires before == if i == 0 then null else ch[i - 1]
      modifies ch`hashNext
      ensures Chain(head, Cut(ch, i)) && Distinct(Cut(ch, i)) && c.hashNext == null
      ensures before != null ==> head == first
    {
      head := first;
      if before == null {
        head := c.hashNext;
      } else {
        before.hashNext := c.hashNext;
      }
      c.hashNext := null;
    }

    /** Takes a node out of the index. */
    method Remove(c: Node, ghost m: set<Node>)
      requires Indexed(m) && c in m
      modifies buckets, this`chains, m`hashNext
      ensures Indexed(m - {c}) && c.hashNext == null
    {
      assert LookAt(Index, 0);
      var before, i := Locate(c, m);
      var b := Bucket(c.bev, buckets.Length);
      ghost var ch := chains[b];
      ghost var chs := chains;
      assert forall d, j | 0 <= d < |chs| && d != b && 0 <= j < |chs[d]| :: chs[d][j] !in ch;
      buckets[b] := Splice(c, before, buckets[b], ch, i);
      HoldsLess(chains, m, b, i);
      chains := chains[b := Cut(ch, i)];
      forall d | 0 <= d < |chains| ensures Chain(buckets[d], chains[d]) {
        if d != b { assert forall j | 0 <= j < |chs[d]| :: chs[d][j] !in ch; }
      }
    }

    /** The nodes of the first b chains. */
    ghost function Of(chs: seq<seq<Node>>, b: nat): set<Node>
      requires b <= |chs|
    {
      set d, i | 0 <= d < b && 0 <= i < |chs[d]| :: chs[d][i]
    }

    /** Moves one chain into the new table, node by node. */
    method Rehash(first: Node?, table: array<Node?>, ghost ch: seq<Node>, ghost done: set<Node>,
        ghost chs: seq<seq<Node>>)
      returns (ghost out: seq<seq<Node>>)
      requires Distinct(ch) && Chain(first, ch) && (forall i | 0 <= i < |ch| :: ch[i] !in done)
      requires Keeps(table, chs, done) && table.Length > 0
      modifies table, ch`hashNext
      ensures Keeps(table, out, done + set n: Node | n in ch)
    {
      ghost var i := 0;
      out := chs;
      var c := first;
      ghost var moved := done;
      while c != null
        invariant i <= |ch| && c == if i == |ch| then null else ch[i]
        invariant forall j {:trigger ch[j].hashNext} | i <= j < |ch| ::
            ch[j].hashNext == if j == |ch| - 1 then null else ch[j + 1]
        invariant moved == done + set n: Node | n in ch[..i]
        invariant Keeps(table, out, moved)
        decreases |ch| - i
      {
        var next := c.hashNext;
        out := Hang(table, c, out, moved);
        moved := moved + {c};
        assert ch[..i + 1] == ch[..i] + [c];
        c := next;
        i := i + 1;
      }
      assert ch[..i] == ch;
    }

    /** Moves every chain into an empty table. */
    method RehashAll(table: array<Node?>, ghost m: set<Node>) returns (ghost out: seq<seq<Node>>)
      requires Indexed(m) && table.Length > 0 && table != buckets
      requires forall b | 0 <= b < table.Length :: table[b] == null
      modifies table, m`hashNext
      ensures Keeps(table, out, m)
    {
      Opened(m);
      out := Nothing(table);
      for b := 0 to buckets.Length
        invariant forall d | b <= d < |chains| :: Chain(buckets[d], chains[d])
        invariant Keeps(table, out, Of(chains, b))
      {
        Fresh(chains, m, b);
        out := Rehash(buckets[b], table, chains[b], Of(chains, b), out);
      }
      OfAll(chains, m);
    }

    /** Doubles the table and rehashes every node; without memory it leaves the table as it is. */
    method Grow(memory: bool, ghost m: set<Node>) returns (grown: bool)
      requires Indexed(m)
      modifies this`buckets, this`chains, m`hashNext
      ensures Indexed(m) && grown == memory && (grown ==> fresh(buckets) && buckets.Length > 0)
      ensures !grown ==> buckets == old(buckets) && chains == old(chains)
    {
      grown := memory;
      if !grown {
        return;
      }
      var count := if buckets.Length > 0 then 2 * buckets.Length else INITIAL_BUCKETS;
      var table := new Node?[count](_ => null);
      ghost var out := RehashAll(table, m);
      buckets, chains := table, out;
    }

    lemma Opened(m: set<Node>)
      requires Indexed(m)
      ensures |chains| == buckets.Length && Holds(chains, m)
      ensures forall b | 0 <= b < |chains| :: Chain(buckets[b], chains[b])
    {
      assert LookAt(Index, 0);
    }

    /** An empty table holds no node. */
    lemma Nothing(table: array<Node?>) returns (out: seq<seq<Node>>)
      requires forall b | 0 <= b < table.Length :: table[b] == null
      ensures Keeps(table, out, {})
    {
      out := seq(table.Length, _ => []);
    }

    /** Distinct chains share no node. */
    lemma Fresh(chs: seq<seq<Node>>, m: set<Node>, b: nat)
      requires Holds(chs, m) && b < |chs|
      ensures forall i | 0 <= i < |chs[b]| :: chs[b][i] !in Of(chs, b)
      ensures Of(chs, b + 1) == Of(chs, b) + set n: Node | n in chs[b]
      ensures forall d, j | 0 <= d < |chs| && d != b && 0 <= j < |chs[d]| :: chs[d][j] !in chs[b]
    {
    }

    lemma OfAll(chs: seq<seq<Node>>, m: set<Node>)
      requires Holds(chs, m)
      ensures Of(chs, |chs|) == m
    {
    }

    // ---- one node ----

    /** Takes a node off the list; the index still has it. */
    method Detach(c: Node, ghost k: nat)
      requires Valid() && k < |order| && order[k] == c
      modifies this`list, this`tail, this`order, this`live, this`view, this`members, members`next, members`prev
      ensures Ordered() && Mirrored(order, view) && Covers(order, members) && live == |order|
      ensures Indexed(old(members)) && c in old(members)
      ensures order == Cut(old(order), k) && members == old(members) - {c}
      ensures view == Without(old(view), c.bev) == Cut(old(view), k)
    {
      ghost var m, o := members, Cut(order, k);
      CutMirrored(order, view, members, k);
      InCovered(order, members, k);
      live := live - 1;
      view := Cut(view, k);
      members := members - {c};
      Unlink(c, k);
      assert Mirrored(o, view) && Keeps(buckets, chains, m);
    }

    /** Takes a node off the list and out of the index. */
    method Forget(c: Node, ghost k: nat)
      requires Valid() && k < |order| && order[k] == c
      modifies this, buckets, members`next, members`prev, members`hashNext
      ensures Valid() && buckets == old(buckets) && order == Cut(old(order), k) && members == old(members) - {c}
      ensures view == Without(old(view), c.bev) == Cut(old(view), k)
    {
      ghost var m := members;
      Detach(c, k);
      Remove(c, m);
      assert Mirrored(order, view) && Ordered();
    }

    /** Moves a node to the head of the list. */
    method ToFront(c: Node, ghost k: nat)
      requires Valid() && k < |order| && order[k] == c
      modifies this`list, this`tail, this`order, this`view, members`next, members`prev
      ensures Valid() && order == [c] + Cut(old(order), k)
      ensures view == [Entry(c.bev, c.s)] + Without(old(view), c.bev) == [Entry(c.bev, c.s)] + Cut(old(view), k)
    {
      ghost var o := [c] + Cut(order, k);
      CutMirrored(order, view, members, k);
      InCovered(order, members, k);
      view := [Entry(c.bev, c.s)] + Cut(view, k);
      Unlink(c, k);
      assert Mirrored(o, view) && Keeps(buckets, chains, members);
      LinkFront(c);
      assert Mirrored(o, view) && Keeps(buckets, chains, members);
    }

    lemma Ends()
      requires Ordered()
      ensures list == (if |order| == 0 then null else order[0])
      ensures tail == (if |order| == 0 then null else order[|order| - 1])
    {
      assert LookAt(List, 0);
    }

    // ---- the sweeps ----

    /** Looks at the tail: a released node goes, another moves to the head. */
    method Examine(gone: nat -> bool)
      requires Valid() && tail != null && |order| > 0 && tail == order[|order| - 1]
      modifies this, buckets, members`next, members`prev, members`hashNext
      ensures Valid() && buckets == old(buckets) && members <= old(members)
      ensures |old(view)| > 0
      ensures var last := |old(view)| - 1;
        view == (if Released(old(view)[last], gone) then [] else [old(view)[last]]) + Cut(old(view), last)
    {
      ghost var k := |order| - 1;
      Reflects(order, view, k);
      assert [] + Cut(view, k) == Cut(view, k);
      var c := tail;
      if Released(Entry(c.bev, c.s), gone) {
        Forget(c, k);
      } else {
        ToFront(c, k);
      }
    }

    /** One examination brings the list one nearer to what the sweep leaves. */
    method SweepTurn(gone: nat -> bool, ghost n: nat, ghost goal: seq<Entry>)
      requires Valid() && tail != null && n > 0 && Planned(view, n, gone, goal)
      modifies this, buckets, members`next, members`prev, members`hashNext
      ensures Valid() && buckets == old(buckets) && members <= old(members)
      ensures Planned(view, n - 1, gone, goal)
    {
      Ends();
      PlanTurns(view, n, gone, goal);
      Examine(gone);
    }

    /** Examines at most SWEEP_MAX nodes. */
    method Sweep(gone: nat -> bool)
      requires Valid()
      modifies this, buckets, members`next, members`prev, members`hashNext
      ensures Valid() && buckets == old(buckets) && members <= old(members)
      ensures view == Swept(old(view), gone)
    {
      var budget: nat := if live < SWEEP_MAX then live else SWEEP_MAX;
      ghost var goal := Swept(view, gone);
      PlanStarts(view, gone);
      while budget > 0 && tail != null
        invariant Valid() && buckets == old(buckets) && members <= old(members)
        invariant Planned(view, budget, gone, goal)
        decreases budget
      {
        SweepTurn(gone, budget, goal);
        budget := budget - 1;
      }
      Ends();
      PlanEnds(view, budget, gone, goal);
    }

    lemma PrevAt(k: nat)
      requires Ordered() && k < |order|
      ensures order[k].prev == (if k == 0 then null else order[k - 1])
      ensures order[k].next == (if k == |order| - 1 then null else order[k + 1])
    {
      assert LookAt(List, 0);
    }

    /** Examines every node, from the tail. */
    method SweepEvery(gone: nat -> bool)
      requires Valid()
      modifies this, buckets, members`next, members`prev, members`hashNext
      ensures Valid() && buckets == old(buckets) && members <= old(members)
      ensures view == SweptAll(old(view), gone)
    {
      ghost var i: nat := |order|;
      Ends();
      var c := tail;
      assert view[..i] == view && view[i..] == [];
      while c != null
        invariant Valid() && buckets == old(buckets) && members <= old(members)
        invariant i <= |old(view)| && i <= |order| && c == (if i == 0 then null else order[i - 1])
        invariant view[..i] == old(view)[..i]
        invariant SweptAll(old(view), gone) == SweptAll(old(view)[..i], gone) + view[i..]
        decreases i
      {
        ghost var k := i - 1;
        PrevAt(k);
        Reflects(order, view, k);
        SweptTurn(old(view), view, k, gone);
        var prev := c.prev;
        if Released(Entry(c.bev, c.s), gone) {
          Forget(c, k);
        }
        c := prev;
        i := k;
      }
    }

    // ---- the per-client cap ----

    /** Writes a node's fields. */
    method SetStatus(c: Node, s: Status, ghost k: nat)
      requires Valid() && k < |order| && order[k] == c
      modifies c`s, this`view
      ensures Valid() && c.s == s && view == Set(old(view), c.bev, s) == old(view)[k := Entry(c.bev, s)]
    {
      assert LookAt(Mirror, 0);
      c.s := s;
      view := view[k := Entry(c.bev, s)];
      assert view == Set(old(view), c.bev, s);
    }

    /** Resolves the others on the way and counts those of the same client. */
    method PeerCount(self: Node, net: Net) returns (n: nat)
      requires Valid() && self in order
      modifies this`view, members`s
      ensures Valid() && view == ResolveOthers(old(view), self.bev, net)
      ensures n == Peers(view, self.bev, self.s.peer) && self.s == old(self.s)
    {
      ghost var i: nat := 0;
      ghost var w := ResolveOthers(view, self.bev, net);
      ghost var q := self.s.peer;
      ghost var p := (e: Entry) => e.bev != self.bev && !e.s.overCap && q.Ip? && e.s.peer == q;
      Ends();
      var c := list;
      n := 0;
      while c != null
        invariant Valid() && self.s == old(self.s)
        invariant i <= |order| && c == (if i == |order| then null else order[i])
        invariant |view| == |w| && view[..i] == w[..i] && view[i..] == old(view)[i..]
        invariant n == Count(w[..i], p)
        decreases |order| - i
      {
        PrevAt(i);
        Reflects(order, view, i);
        OneOnly(order, view, i, self);
        InCovered(order, members, i);
        Peeled(old(view), view, w, i);
        if c != self {
          SetStatus(c, Resolve(Entry(c.bev, c.s), net).s, i);
        }
        CountNext(w, i, p);
        if c != self && !c.s.overCap && self.s.peer.Ip? && c.s.peer == self.s.peer {
          n := n + 1;
        }
        c := c.next;
        i := i + 1;
      }
      assert view[..i] == view && w[..i] == w;
    }

    /** Judges a connection, once; the one that is judged now is still evhttp's. */
    method CheckPeer(c: Node, drop: bool, net: Net, l: Limits) returns (admitted: bool)
      requires Valid() && c in order && (Judges(c.s, l) ==> !net.gone(c.bev))
      modifies this, buckets, members
      ensures Valid() && buckets == old(buckets) && members <= old(members) && (admitted ==> c in order)
      ensures Tracked(old(view), c.bev) && (view, admitted) == Judged(old(view), c.bev, net, l, drop)
    {
      ghost var k := Position(c);
      if c.s.checked || l.maxPerClient == 0 {
        return true;
      }
      SetStatus(c, c.s.(checked := true), k);
      if c.s.peer.NoPeer? {
        return true;
      }
      admitted := JudgeNow(c, drop, net, l);
    }

    /** Where the node is on the list, and what the list says of it. */
    ghost method Position(c: Node) returns (k: nat)
      requires Valid() && c in order
      ensures k < |order| && order[k] == c && Tracked(view, c.bev) && Get(view, c.bev) == c.s && c in members
    {
      k :| 0 <= k < |order| && order[k] == c;
      Reflects(order, view, k);
      GetAt(view, k);
      InCovered(order, members, k);
    }

    /** The sweep, the count and the verdict. */
    method JudgeNow(c: Node, drop: bool, net: Net, l: Limits) returns (admitted: bool)
      requires Valid() && c in order && !net.gone(c.bev)
      modifies this, buckets, members
      ensures Valid() && buckets == old(buckets) && members <= old(members) && (admitted ==> c in order)
      ensures var seen := ResolveOthers(SweptAll(old(view), net.gone), c.bev, net); var s := old(c.s);
        && admitted == (Peers(seen, c.bev, s.peer) < l.maxPerClient)
        && view == if admitted then seen
                   else if drop then Set(seen, c.bev, s.(overCap := true))
                   else Without(seen, c.bev)
    {
      ghost var k := Position(c);
      Reflects(order, view, k);
      OneNode(order, view, members);
      SurvivesIff(view, k, net.gone);
      ghost var m := members;
      SweepEvery(net.gone);
      Refound(order, view, members, m, c);
      var n := PeerCount(c, net);
      admitted := n < l.maxPerClient;
      if admitted {
        return;
      }
      k := Position(c);
      if drop {
        SetStatus(c, c.s.(overCap := true), k);
      } else {
        Forget(c, k);
      }
    }

    // ---- the calls ----

    /** The loop pass after the accept: the descriptor is known, the cap judges, the watcher is armed. */
    method PickUp(c: Node, net: Net, l: Limits, watched: bool)
      requires Valid() && c in order && Safe(view, c.bev, net, l)
      modifies this, buckets, members
      ensures Valid() && Tracked(old(view), c.bev) && view == PickedUp(old(view), c.bev, net, l, watched)
    {
      ghost var k := Position(c);
      var s := Resolve(Entry(c.bev, c.s), net).s;
      if !s.resolved {
        Forget(c, k);
        return;
      }
      SetStatus(c, s, k);
      var admitted := CheckPeer(c, true, net, l);
      if admitted && !watched {
        k := Position(c);
        Forget(c, k);
      }
    }

    /** A request arrived on a connection evhttp owns; is it to be answered? */
    method Answer(bev: nat, net: Net, l: Limits) returns (answered: bool)
      requires Valid() && Safe(view, bev, net, l)
      modifies this, buckets, members
      ensures Valid() && (view, answered) == Requested(old(view), bev, net, l)
    {
      var c := Find(bev, members);
      FoundIsWalk(order, view, members, c, bev);
      if c == null {
        return true;
      }
      answered := Serve(c, net, l);
    }

    method Serve(c: Node, net: Net, l: Limits) returns (answered: bool)
      requires Valid() && c in order && Safe(view, c.bev, net, l)
      modifies this, buckets, members
      ensures Valid() && (view, answered) == Requested(old(view), c.bev, net, l)
    {
      ghost var k := Position(c);
      if c.s.overCap {
        Forget(c, k);
        return false;
      }
      ghost var v := view;
      var s := Asks(c.s, c.bev, net);
      RequestedIs(v, c.bev, net, l, s);
      SetStatus(c, s, k);
      answered := CheckPeer(c, false, net, l);
      if !answered {
        return;
      }
      k := Position(c);
      if !l.trackLive && !Limited(l) {
        Forget(c, k);
      } else {
        MoveServed(c, k);
      }
    }

    method MoveServed(c: Node, ghost k: nat)
      requires Valid() && k < |order| && order[k] == c
      modifies this, members
      ensures Valid() && view == [Entry(c.bev, old(c.s).(served := true))] + Without(old(view), c.bev)
    {
      Reflects(order, view, k);
      WithoutSet(view, c.bev, c.s.(served := true));
      InCovered(order, members, k);
      SetStatus(c, c.s.(served := true), k);
      ToFront(c, k);
    }

    /** A connection is accepted: a sweep, then a node that is indexed before it is linked.  `room` and
        `table` say whether memory was had for the node and for a larger table, `armed` whether its
        timers could be set.  A connection goes untracked without a node, without its timers, or when
        there is no table at all yet; a table that could not grow still takes it. */
    method AcceptConn(bev: nat, gone: nat -> bool, room: bool, table: bool, armed: bool) returns (tracked: bool)
      requires Valid() && !Tracked(view, bev)
      modifies this, buckets, members
      ensures Valid() && view == (if tracked then [Entry(bev, FRESH)] else []) + Swept(old(view), gone)
      ensures tracked == (room && armed && (table || old(buckets).Length > 0))
    {
      ghost var v := view;
      ViewKeys(order, view);
      SweptLacks(v, gone, bev);
      Sweep(gone);
      assert [] + view == view;
      if !room {
        return false;
      }
      tracked := Track(bev, table, armed);
    }

    method Track(bev: nat, table: bool, armed: bool) returns (tracked: bool)
      requires Valid() && !Tracked(view, bev)
      modifies this, buckets, members
      ensures Valid() && view == (if tracked then [Entry(bev, FRESH)] else []) + old(view)
      ensures tracked == (armed && (table || old(buckets).Length > 0))
    {
      assert [] + view == view;
      if live >= buckets.Length {
        var grown := Grow(table, members);
        assert Ordered() && Mirrored(order, view);
      }
      if buckets.Length == 0 {
        return false;
      }
      var c := new Node(bev);
      Enlist(c);
      tracked := armed;
      if !armed {
        ghost var v := view;
        Forget(c, 0);
        assert Cut(v, 0) == v[1..];
      }
    }

    /** Indexes a node and links it at the head. */
    method Enlist(c: Node)
      requires Valid() && c !in members && buckets.Length > 0 && !Tracked(view, c.bev)
      modifies this, buckets, members`next, members`prev, c`next, c`prev, c`hashNext
      ensures Valid() && buckets == old(buckets) && order == [c] + old(order) && members == old(members) + {c}
      ensures view == [Entry(c.bev, c.s)] + old(view)
    {
      ghost var m, o := members, [c] + order;
      FrontMirrored(order, view, members, c);
      Inside(order, members);
      live := live + 1;
      view := [Entry(c.bev, c.s)] + view;
      members := members + {c};
      chains := Hang(buckets, c, chains, m);
      assert Ordered() && Mirrored(o, view);
      LinkFront(c);
      assert Mirrored(o, view) && Keeps(buckets, chains, members);
    }

    /** May another connection be accepted?  At the cap the dead nodes go first. */
    method MayAccept(gone: nat -> bool, l: Limits) returns (may: bool)
      requires Valid()
      modifies this, buckets, members
      ensures Valid() && view == After(old(view), Gate(gone), l)
      ensures may <==> l.maxConnections == 0 || |view| < l.maxConnections
    {
      if l.maxConnections == 0 || live < l.maxConnections {
        return true;
      }
      SweepEvery(gone);
      may := live < l.maxConnections;
    }
  }

  /** The entry of a node. */
  lemma Reflects(o: seq<Node>, v: seq<Entry>, k: nat)
    requires Mirrored(o, v) && k < |o|
    ensures v[k] == Entry(o[k].bev, o[k].s) && KeysOnce(v)
  {
    assert LookAt(Mirror, 0);
  }

  lemma InCovered(o: seq<Node>, m: set<Node>, k: nat)
    requires Covers(o, m) && k < |o|
    ensures o[k] in m && (forall x | x in m :: x in o) && (forall x | x in o :: x in m)
  {
    assert LookAt(Cover, 0);
  }

  lemma CutMirrored(o: seq<Node>, v: seq<Entry>, m: set<Node>, k: nat)
    requires Mirrored(o, v) && Covers(o, m) && k < |o|
    ensures Mirrored(Cut(o, k), Cut(v, k)) && Mirrored([o[k]] + Cut(o, k), [Entry(o[k].bev, o[k].s)] + Cut(v, k))
    ensures Covers(Cut(o, k), m - {o[k]}) && Covers([o[k]] + Cut(o, k), m)
    ensures o[k] !in Cut(o, k) && Cut(v, k) == Without(v, o[k].bev)
  {
    assert LookAt(Mirror, 0) && LookAt(Cover, 0);
    CutMembers(o, k);
    WithoutAt(v, k);
    CutMirrors(o, v, k);
  }

  lemma CutMirrors(o: seq<Node>, v: seq<Entry>, k: nat)
    requires Mirrors(o, v) && k < |o|
    ensures Mirrors(Cut(o, k), Cut(v, k)) && Mirrors([o[k]] + Cut(o, k), [Entry(o[k].bev, o[k].s)] + Cut(v, k))
  {
  }

  /** One turn of the exhaustive sweep: the entry at k is kept or dropped. */
  lemma SweptLast(v: seq<Entry>, k: nat, gone: nat -> bool)
    requires k < |v|
    ensures SweptAll(v[..k + 1], gone) == SweptAll(v[..k], gone) + if Released(v[k], gone) then [] else [v[k]]
  {
    assert v[..k + 1][..k] == v[..k];
  }

  lemma Suffix(v: seq<Entry>, w: seq<Entry>, k: nat)
    requires k < |v| && k < |w| && w[..k + 1] == v[..k + 1]
    ensures w[..k] == v[..k] && w[k] == v[k] && Cut(w, k)[..k] == v[..k] && Cut(w, k)[k..] == w[k + 1..]
    ensures w[k..] == [w[k]] + w[k + 1..] && [] + w[k + 1..] == w[k + 1..]
  {
    assert w[k] == w[..k + 1][k] && v[k] == v[..k + 1][k];
    assert w[..k] == w[..k + 1][..k] && v[..k] == v[..k + 1][..k];
  }

  lemma SweptTurn(v: seq<Entry>, w: seq<Entry>, k: nat, gone: nat -> bool)
    requires k < |v| && k < |w| && w[..k + 1] == v[..k + 1]
    requires SweptAll(v, gone) == SweptAll(v[..k + 1], gone) + w[k + 1..]
    ensures w[..k] == v[..k] && Cut(w, k)[..k] == v[..k]
    ensures SweptAll(v, gone) == SweptAll(v[..k], gone) + if Released(w[k], gone) then Cut(w, k)[k..] else w[k..]
  {
    Suffix(v, w, k);
    SweptLast(v, k, gone);
    Assoc(SweptAll(v[..k], gone), if Released(v[k], gone) then [] else [v[k]], w[k + 1..]);
  }

  lemma Assoc(a: seq<Entry>, b: seq<Entry>, c: seq<Entry>)
    ensures a + b + c == a + (b + c)
  {
  }

  /** A node has its key to itself. */
  lemma OneOnly(o: seq<Node>, v: seq<Entry>, i: nat, n: Node)
    requires Mirrored(o, v) && i < |o| && n in o
    ensures o[i].bev == n.bev <==> o[i] == n
  {
    assert LookAt(Mirror, 0);
  }

  lemma Peeled(u: seq<Entry>, v: seq<Entry>, w: seq<Entry>, i: nat)
    requires |u| == |v| == |w| && i < |v| && v[i..] == u[i..] && v[..i] == w[..i]
    ensures v[i] == u[i] && v[i + 1..] == u[i + 1..]
    ensures v[i := w[i]][i + 1..] == u[i + 1..]
    ensures v[i := w[i]][..i + 1] == w[..i + 1] && (v[i] == w[i] ==> v[..i + 1] == w[..i + 1])
  {
    assert v[i] == v[i..][0] && u[i] == u[i..][0];
    assert v[i + 1..] == v[i..][1..] && u[i + 1..] == u[i..][1..];
  }

  lemma CountNext(w: seq<Entry>, i: nat, p: Entry -> bool)
    requires i < |w|
    ensures Count(w[..i + 1], p) == Count(w[..i], p) + if p(w[i]) then 1 else 0
  {
    assert w[..i + 1] == w[..i] + [w[i]];
    CountLast(w[..i], w[i], p);
  }

  /** No two nodes of the set have one key. */
  ghost predicate KeysTell(m: set<Node>) { forall x, y | x in m && y in m :: x.bev == y.bev ==> x == y }

  lemma OneNode(o: seq<Node>, v: seq<Entry>, m: set<Node>)
    requires Mirrored(o, v) && Covers(o, m)
    ensures KeysTell(m)
  {
    assert LookAt(Mirror, 0) && LookAt(Cover, 0);
    forall x, y | x in m && y in m && x.bev == y.bev ensures x == y {
      var i :| 0 <= i < |o| && o[i] == x;
      var j :| 0 <= j < |o| && o[j] == y;
    }
  }

  lemma Refound(o: seq<Node>, v: seq<Entry>, m: set<Node>, all: set<Node>, c: Node)
    requires Mirrored(o, v) && Covers(o, m) && m <= all && KeysTell(all) && c in all && Tracked(v, c.bev)
    ensures c in o
  {
    assert LookAt(Mirror, 0) && LookAt(Cover, 0);
    var k :| 0 <= k < |v| && v[k].bev == c.bev;
    assert o[k] in m;
  }

  /** What the index finds is what a walk of the list would find. */
  lemma FoundIsWalk(o: seq<Node>, v: seq<Entry>, m: set<Node>, c: Node?, bev: nat)
    requires Mirrored(o, v) && Covers(o, m)
    requires c != null ==> c in m && c.bev == bev
    requires c == null ==> forall n | n in m :: n.bev != bev
    ensures c != null <==> Tracked(v, bev)
    ensures c != null ==> c in o
  {
    assert LookAt(Mirror, 0) && LookAt(Cover, 0);
    if c != null {
      var k :| 0 <= k < |o| && o[k] == c;
      assert v[k].bev == bev;
    }
  }

  lemma ViewKeys(o: seq<Node>, v: seq<Entry>)
    requires Mirrored(o, v)
    ensures KeysOnce(v)
  {
    assert LookAt(Mirror, 0);
  }

  lemma Inside(o: seq<Node>, m: set<Node>)
    requires Covers(o, m)
    ensures (forall x | x in m :: x in o) && (forall x | x in o :: x in m)
  {
    assert LookAt(Cover, 0);
  }

  lemma SweptLacks(v: seq<Entry>, gone: nat -> bool, bev: nat)
    requires KeysOnce(v) && !Tracked(v, bev)
    ensures !Tracked(Swept(v, gone), bev)
  {
    RotationWithout(v, Budget(v), gone, bev);
  }

  lemma FrontMirrored(o: seq<Node>, v: seq<Entry>, m: set<Node>, c: Node)
    requires Mirrored(o, v) && Covers(o, m) && !Tracked(v, c.bev)
    ensures Mirrored([c] + o, [Entry(c.bev, c.s)] + v) && Covers([c] + o, m + {c})
  {
    assert LookAt(Mirror, 0) && LookAt(Cover, 0);
  }

  /** n more examinations of v lead to the goal. */
  ghost predicate Planned(v: seq<Entry>, n: nat, gone: nat -> bool, goal: seq<Entry>) {
    forall k: nat {:trigger LookAt(Plan, k)} :: LookAt(Plan, k) ==> Rotated(v, n, gone) == goal
  }

  lemma PlanStarts(v: seq<Entry>, gone: nat -> bool)
    ensures Planned(v, if |v| < SWEEP_MAX then |v| else SWEEP_MAX, gone, Swept(v, gone))
  {
  }

  lemma PlanTurns(v: seq<Entry>, n: nat, gone: nat -> bool, goal: seq<Entry>)
    requires Planned(v, n, gone, goal) && n > 0 && v != []
    ensures var last := |v| - 1;
      Planned((if Released(v[last], gone) then [] else [v[last]]) + Cut(v, last), n - 1, gone, goal)
  {
    assert LookAt(Plan, 0);
    RotatedTurn(v, n, gone);
  }

  lemma PlanEnds(v: seq<Entry>, n: nat, gone: nat -> bool, goal: seq<Entry>)
    requires Planned(v, n, gone, goal) && (n == 0 || v == [])
    ensures v == goal
  {
    assert LookAt(Plan, 0);
  }
}
