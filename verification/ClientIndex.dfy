/**
 The gateway's index of client connections: chains doubly linked through the nodes, so that a close
 takes its node out without a search.
 */
module ClientIndex {
  import opened Shared

  const INITIAL_BUCKETS := 64

  class Client {
    const evcon: nat
    var hashPrev: Client?
    var hashNext: Client?
    var hashBucket: nat

    constructor (evcon: nat)
      ensures this.evcon == evcon
    {
      this.evcon := evcon;
      hashPrev, hashNext, hashBucket := null, null, 0;
    }
  }

  ghost predicate Distinct(ch: seq<Client>) { forall i, j | 0 <= i < j < |ch| :: ch[i] != ch[j] }

  /** The links spell out the chain of bucket b from its head. */
  ghost predicate Chain(head: Client?, ch: seq<Client>, b: nat)
    reads ch
  {
    && head == (if |ch| == 0 then null else ch[0])
    && (forall i {:trigger ch[i].hashNext} | 0 <= i < |ch| ::
        ch[i].hashNext == if i == |ch| - 1 then null else ch[i + 1])
    && (forall i {:trigger ch[i].hashPrev} | 0 <= i < |ch| :: ch[i].hashPrev == if i == 0 then null else ch[i - 1])
    && (forall i | 0 <= i < |ch| :: ch[i].hashBucket == b)
  }

  class Index {
    const hash: nat -> nat
    var buckets: array<Client?>    // its length is the bucket count, a power of two or 0
    var count: nat
    ghost var chains: seq<seq<Client>>
    ghost var members: set<Client>

    function Bucket(evcon: nat, n: nat): (b: nat)
      requires n > 0
      ensures b < n
    {
      hash(evcon) % n
    }

    /** The chains hold exactly the nodes m, each once and on the chain of its bucket. */
    ghost predicate Holds(chs: seq<seq<Client>>, m: set<Client>) {
      && (forall b, i | 0 <= b < |chs| && 0 <= i < |chs[b]| :: chs[b][i] in m && Bucket(chs[b][i].evcon, |chs|) == b)
      && (forall b | 0 <= b < |chs| :: Distinct(chs[b]))
      && (forall n | n in m :: |chs| > 0 && n in chs[Bucket(n.evcon, |chs|)])
    }

    ghost predicate Shows(t: array<Client?>, chs: seq<seq<Client>>, m: set<Client>)
      reads t, m
    {
      && Holds(chs, m) && t.Length == |chs|
      && (forall b | 0 <= b < |chs| :: Chain(t[b], chs[b], b))
    }

    ghost predicate Keeps(t: array<Client?>, chs: seq<seq<Client>>, m: set<Client>)
      reads t, m
    {
      forall n: nat {:trigger Look(n)} :: Look(n) ==> Shows(t, chs, m)
    }

    /** The index holds the members, each connection once, and counts them. */
    ghost predicate Valid()
      reads this, buckets, members
    {
      Keeps(buckets, chains, members) && count == |members| && KeysTell(members)
    }

    constructor (hash: nat -> nat)
      ensures Valid() && members == {}
    {
      this.hash := hash;
      buckets := new Client?[0](_ => null);
      count, chains, members := 0, [], {};
    }

    lemma HoldsMore(chs: seq<seq<Client>>, m: set<Client>, c: Client)
      requires Holds(chs, m) && c !in m && |chs| > 0
      ensures var b := Bucket(c.evcon, |chs|); Holds(chs[b := [c] + chs[b]], m + {c})
    {
    }

    lemma HoldsLess(chs: seq<seq<Client>>, m: set<Client>, b: nat, i: nat)
      requires Holds(chs, m) && b < |chs| && i < |chs[b]|
      ensures Holds(chs[b := Cut(chs[b], i)], m - {chs[b][i]})
    {
      var less := chs[b := Cut(chs[b], i)];
      CutMembers(chs[b], i);
      forall d, j | 0 <= d < |less| && 0 <= j < |less[d]|
        ensures less[d][j] in m - {chs[b][i]} && Bucket(less[d][j].evcon, |less|) == d
      {
        assert less[d][j] in chs[d];
      }
    }

    /** Puts a node at the head of a chain. */
    method Front(c: Client, head: Client?, b: nat, ghost ch: seq<Client>)
      requires Chain(head, ch, b) && Distinct(ch) && c !in ch
      modifies c, ch
      ensures Chain(c, [c] + ch, b)
    {
      c.hashBucket := b;
      c.hashPrev := null;
      c.hashNext := head;
      if head != null {
        head.hashPrev := c;
      }
    }

    /** Puts a node at the head of its chain in a table. */
    method Hang(t: array<Client?>, c: Client, ghost chs: seq<seq<Client>>, ghost m: set<Client>)
      returns (ghost out: seq<seq<Client>>)
      requires Keeps(t, chs, m) && c !in m && t.Length > 0
      modifies t, c, m
      ensures Keeps(t, out, m + {c})
    {
      assert Look(0);
      var b := Bucket(c.evcon, t.Length);
      ghost var ch := chs[b];
      Apart(chs, m, b);
      Front(c, t[b], b, ch);
      t[b] := c;
      HoldsMore(chs, m, c);
      out := chs[b := [c] + ch];
    }

    /** Distinct chains share no node. */
    lemma Apart(chs: seq<seq<Client>>, m: set<Client>, b: nat)
      requires Holds(chs, m) && b < |chs|
      ensures forall d, j | 0 <= d < |chs| && d != b && 0 <= j < |chs[d]| :: chs[d][j] !in chs[b]
    {
    }

    /** The node of this connection, or null when no node has it. */
    method Find(evcon: nat) returns (c: Client?)
      requires Valid()
      ensures c != null ==> c in members && c.evcon == evcon
      ensures c == null ==> forall n | n in members :: n.evcon != evcon
    {
      assert Look(0);
      if buckets.Length == 0 {
        return null;
      }
      var b := Bucket(evcon, buckets.Length);
      ghost var ch := chains[b];
      assert Chain(buckets[b], ch, b);
      ghost var i := 0;
      c := buckets[b];
      while c != null
        invariant i <= |ch| && c == if i == |ch| then null else ch[i]
        invariant forall j | 0 <= j < i :: ch[j].evcon != evcon
        decreases |ch| - i
      {
        if c.evcon == evcon {
          return;
        }
        c := c.hashNext;
        i := i + 1;
      }
    }

    /** The nodes of the first b chains. */
    ghost function Of(chs: seq<seq<Client>>, b: nat): set<Client>
      requires b <= |chs|
    {
      set d, i | 0 <= d < b && 0 <= i < |chs[d]| :: chs[d][i]
    }

    /** Moves one chain into the new table, node by node. */
    method Rehash(first: Client?, table: array<Client?>, ghost ch: seq<Client>, ghost b: nat, ghost done: set<Client>,
                  ghost chs: seq<seq<Client>>) returns (ghost out: seq<seq<Client>>)
      requires Distinct(ch) && Chain(first, ch, b) && (forall i | 0 <= i < |ch| :: ch[i] !in done)
      requires Keeps(table, chs, done) && table.Length > 0
      modifies table, ch, done
      ensures Keeps(table, out, done + set n: Client | n in ch)
    {
      ghost var i := 0;
      out := chs;
      var c := first;
      ghost var moved := done;
      while c != null
        invariant i <= |ch| && c == if i == |ch| then null else ch[i]
        invariant forall j {:trigger ch[j].hashNext} | i <= j < |ch| ::
            ch[j].hashNext == if j == |ch| - 1 then null else ch[j + 1]
        invariant moved == done + set n: Client | n in ch[..i]
        invariant Keeps(table, out, moved)
        decreases |ch| - i
      {
        var next := c.hashNext;
        assert forall j | i <= j < |ch| :: ch[j] !in moved;
        out := Hang(table, c, out, moved);
        moved := moved + {c};
        assert ch[..i + 1] == ch[..i] + [c];
        c := next;
        i := i + 1;
      }
      assert ch[..i] == ch;
    }

    /** The chains from b on are as they were. */
    ghost predicate Remain(b: nat)
      reads this`buckets, this`chains, this`members, buckets, members
    {
      forall n: nat {:trigger Look(n)} :: Look(n) ==>
        && Holds(chains, members) && |chains| == buckets.Length
        && forall d | b <= d < |chains| :: Chain(buckets[d], chains[d], d)
    }

    /** Moves chain b. */
    method RehashOne(b: nat, table: array<Client?>, ghost chs: seq<seq<Client>>) returns (ghost out: seq<seq<Client>>)
      requires b < buckets.Length == |chains| && Remain(b) && table.Length > 0 && table != buckets
      requires Keeps(table, chs, Of(chains, b))
      modifies table, members
      ensures Remain(b + 1) && Keeps(table, out, Of(chains, b + 1))
    {
      assert Holds(chains, members) && forall d | b <= d < |chains| :: Chain(buckets[d], chains[d], d) by {
        assert Look(0);
      }
      Fresh(chains, members, b);
      out := Rehash(buckets[b], table, chains[b], b, Of(chains, b), chs);
    }

    /** Moves every chain into an empty table. */
    method RehashAll(table: array<Client?>) returns (ghost out: seq<seq<Client>>)
      requires Keeps(buckets, chains, members) && table.Length > 0 && table != buckets
      requires forall b | 0 <= b < table.Length :: table[b] == null
      modifies table, members
      ensures Keeps(table, out, members)
    {
      Opened(chains, members);
      OfAll(chains, members);
      out := Nothing(table);
      for b := 0 to buckets.Length
        invariant Remain(b) && Keeps(table, out, Of(chains, b))
      {
        out := RehashOne(b, table, out);
      }
    }

    lemma Opened(chs: seq<seq<Client>>, m: set<Client>)
      requires Keeps(buckets, chs, m)
      ensures |chs| == buckets.Length && Holds(chs, m)
      ensures forall b | 0 <= b < |chs| :: Chain(buckets[b], chs[b], b)
    {
      assert Look(0);
    }

    /** An empty table holds no node. */
    lemma Nothing(table: array<Client?>) returns (out: seq<seq<Client>>)
      requires forall b | 0 <= b < table.Length :: table[b] == null
      ensures Keeps(table, out, {})
    {
      out := seq(table.Length, _ => []);
    }

    lemma Fresh(chs: seq<seq<Client>>, m: set<Client>, b: nat)
      requires Holds(chs, m) && b < |chs|
      ensures forall i | 0 <= i < |chs[b]| :: chs[b][i] !in Of(chs, b) && chs[b][i] in m
      ensures forall x | x in Of(chs, b) :: x in m
      ensures Of(chs, b + 1) == Of(chs, b) + set n: Client | n in chs[b]
      ensures forall d, j | b < d < |chs| && 0 <= j < |chs[d]| :: chs[d][j] !in chs[b] && chs[d][j] !in Of(chs, b)
    {
    }

    lemma OfAll(chs: seq<seq<Client>>, m: set<Client>)
      requires Holds(chs, m)
      ensures Of(chs, |chs|) == m
    {
    }

    /** Doubles the table and rehashes every node; without memory it leaves the table as it is. */
    method Grow(memory: bool) returns (grown: bool)
      requires Valid()
      modifies this`buckets, this`chains, members
      ensures Valid() && grown == memory && (grown ==> fresh(buckets) && buckets.Length > 0)
      ensures !grown ==> buckets == old(buckets)
    {
      grown := memory;
      if !grown {
        return;
      }
      var n := if buckets.Length > 0 then 2 * buckets.Length else INITIAL_BUCKETS;
      var table := new Client?[n](_ => null);
      ghost var out := RehashAll(table);
      buckets, chains := table, out;
    }

    /** Adds a node; only the very first table is indispensable. */
    method Insert(c: Client, first: bool, more: bool) returns (ok: bool)
      requires Valid() && c !in members && forall n | n in members :: n.evcon != c.evcon
      modifies this, buckets, members, c
      ensures Valid() && members == old(members) + (if ok then {c} else {})
      ensures ok <==> old(buckets.Length) > 0 || first
    {
      ok := true;
      if buckets.Length == 0 {
        ok := Grow(first);
        if !ok {
          return;
        }
      }
      if count >= buckets.Length - buckets.Length / 4 {
        var _ := Grow(more);
      }
      Add(c);
    }

    method Add(c: Client)
      requires Valid() && c !in members && buckets.Length > 0 && forall n | n in members :: n.evcon != c.evcon
      modifies this`chains, this`members, this`count, buckets, members, c
      ensures Valid() && members == old(members) + {c}
    {
      ghost var m := members;
      OneMore(m, c);
      members := members + {c};
      count := count + 1;
      chains := Hang(buckets, c, chains, m);
    }

    /** Takes a node off a chain; `head` is the chain's head afterwards. */
    method Unhook(c: Client, first: Client?, ghost ch: seq<Client>, ghost b: nat, ghost i: nat) returns (head: Client?)
      requires Chain(first, ch, b) && Distinct(ch) && i < |ch| && ch[i] == c
      modifies ch
      ensures Chain(head, Cut(ch, i), b) && c.hashNext == null && c.hashPrev == null
      ensures i > 0 ==> head == first
    {
      head := first;
      assert c.hashPrev == (if i == 0 then null else ch[i - 1]);
      assert c.hashNext == (if i == |ch| - 1 then null else ch[i + 1]);
      if c.hashPrev != null {
        c.hashPrev.hashNext := c.hashNext;
      } else {
        head := c.hashNext;
      }
      if c.hashNext != null {
        c.hashNext.hashPrev := c.hashPrev;
      }
      c.hashPrev := null;
      c.hashNext := null;
    }

    /** Takes a node out of its chain, without looking for it. */
    method TakeOut(c: Client, ghost m: set<Client>)
      requires Keeps(buckets, chains, m) && c in m
      modifies this`chains, buckets, m
      ensures Keeps(buckets, chains, m - {c})
    {
      Opened(chains, m);
      ghost var chs := chains;
      ghost var b0 := Bucket(c.evcon, |chs|);
      ghost var i :| 0 <= i < |chs[b0]| && chs[b0][i] == c;
      assert Chain(buckets[b0], chs[b0], b0);
      var b := c.hashBucket;
      Apart(chs, m, b);
      HoldsLess(chs, m, b, i);
      buckets[b] := Unhook(c, buckets[b], chs[b], b, i);
      chains := chs[b := Cut(chs[b], i)];
      forall d | 0 <= d < |chains| ensures Chain(buckets[d], chains[d], d) {
        if d != b { assert forall j | 0 <= j < |chs[d]| :: chs[d][j] !in chs[b]; }
      }
    }

    /** The connection closed. */
    method Remove(c: Client)
      requires Valid() && c in members
      modifies this`chains, this`members, this`count, buckets, members
      ensures Valid() && members == old(members) - {c}
    {
      ghost var m := members;
      members := members - {c};
      count := count - 1;
      TakeOut(c, m);
    }
  }

  /** No two nodes of the set have one connection. */
  ghost predicate KeysTell(m: set<Client>) { forall x, y | x in m && y in m :: x.evcon == y.evcon ==> x == y }

  lemma OneMore(m: set<Client>, c: Client)
    requires KeysTell(m) && c !in m && forall n | n in m :: n.evcon != c.evcon
    ensures KeysTell(m + {c}) && |m + {c}| == |m| + 1
  {
  }
}
