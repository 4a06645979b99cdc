/**
 The shared HTTP-01 challenge store: two slots, a generation counter, a writer lock and
 lock-free readers that re-check the generation.

 Writers and readers, any number of each, interleave one memory cell at a time: the count of
 a slot, the length of an entry, or a single byte of a token or a key authorization.  A writer
 may die anywhere, also in the middle of its draft and with the lock held.
 */
module ChallengeStore {
  import opened Shared

  const TOKEN_MAX: nat := 128
  const KEYAUTH_MAX: nat := 512
  const SLOT_MAX: nat := 8
  const ATTEMPTS: nat := 4

  type Bytes = seq<nat>      // a C string without its terminator, or the cells of a buffer

  // ---- memory ----

  datatype Entry = Entry(len: nat, token: Bytes, keyauth: Bytes)

  datatype Slot = Slot(count: nat, entries: seq<Entry>)

  predicate Shaped(s: Slot) {
    && |s.entries| == SLOT_MAX
    && forall i | 0 <= i < SLOT_MAX :: |s.entries[i].token| == TOKEN_MAX && |s.entries[i].keyauth| == KEYAUTH_MAX
  }

  datatype Cell = Count | Len(i: nat) | Token(i: nat, k: nat) | Key(i: nat, k: nat)

  predicate InSlot(c: Cell) {
    match c
    case Count => true
    case Len(i) => i < SLOT_MAX
    case Token(i, k) => i < SLOT_MAX && k < TOKEN_MAX
    case Key(i, k) => i < SLOT_MAX && k < KEYAUTH_MAX
  }

  ghost function AllCells(): set<Cell> {
    {Count}
    + (set i: nat | i < SLOT_MAX :: Len(i))
    + (set i: nat, k: nat | i < SLOT_MAX && k < TOKEN_MAX :: Token(i, k))
    + (set i: nat, k: nat | i < SLOT_MAX && k < KEYAUTH_MAX :: Key(i, k))
  }

  function Get(s: Slot, c: Cell): nat
    requires Shaped(s) && InSlot(c)
  {
    match c
    case Count => s.count
    case Len(i) => s.entries[i].len
    case Token(i, k) => s.entries[i].token[k]
    case Key(i, k) => s.entries[i].keyauth[k]
  }

  function Put(s: Slot, c: Cell, v: nat): (t: Slot)
    requires Shaped(s) && InSlot(c)
    ensures Shaped(t) && Get(t, c) == v
    ensures forall d | InSlot(d) && d != c :: Get(t, d) == Get(s, d)
  {
    match c
    case Count => s.(count := v)
    case Len(i) => s.(entries := s.entries[i := s.entries[i].(len := v)])
    case Token(i, k) => s.(entries := s.entries[i := s.entries[i].(token := s.entries[i].token[k := v])])
    case Key(i, k) => s.(entries := s.entries[i := s.entries[i].(keyauth := s.entries[i].keyauth[k := v])])
  }

  lemma SameCells(s: Slot, t: Slot)
    requires Shaped(s) && Shaped(t)
    requires forall c | InSlot(c) :: Get(s, c) == Get(t, c)
    ensures s == t
  {
    assert Get(s, Count) == Get(t, Count);
    forall i | 0 <= i < SLOT_MAX ensures s.entries[i] == t.entries[i] {
      assert Get(s, Len(i)) == Get(t, Len(i));
      forall k | 0 <= k < TOKEN_MAX ensures s.entries[i].token[k] == t.entries[i].token[k] {
        assert Get(s, Token(i, k)) == Get(t, Token(i, k));
      }
      forall k | 0 <= k < KEYAUTH_MAX ensures s.entries[i].keyauth[k] == t.entries[i].keyauth[k] {
        assert Get(s, Key(i, k)) == Get(t, Key(i, k));
      }
    }
    assert s.entries == t.entries;
  }

  // ---- what a slot means ----

  datatype Pair = Pair(token: Bytes, keyauth: Bytes)

  datatype Op = Set(token: Bytes, keyauth: Bytes) | Clear(token: Bytes)

  predicate CString(s: Bytes) { 0 !in s }

  /** What set() and clear() accept before they touch the store. */
  predicate Acceptable(op: Op) {
    && CString(op.token) && |op.token| > 0
    && (op.Set? ==>
          && |op.token| < TOKEN_MAX
          && '/' as nat !in op.token && '%' as nat !in op.token
          && '?' as nat !in op.token && '#' as nat !in op.token
          && CString(op.keyauth) && 0 < |op.keyauth| < KEYAUTH_MAX)
  }

  predicate Storable(p: Pair) {
    CString(p.token) && 0 < |p.token| < TOKEN_MAX && CString(p.keyauth) && 0 < |p.keyauth| < KEYAUTH_MAX
  }

  function Zeros(n: nat): (z: Bytes)
    ensures |z| == n
  {
    seq(n, _ => 0)
  }

  function Pad(s: Bytes, n: nat): (r: Bytes)
    requires |s| <= n
    ensures |r| == n
  {
    s + Zeros(n - |s|)
  }

  const BLANK := Entry(0, Zeros(TOKEN_MAX), Zeros(KEYAUTH_MAX))

  function Encoded(p: Pair): (e: Entry)
    requires Storable(p)
    ensures |e.token| == TOKEN_MAX && |e.keyauth| == KEYAUTH_MAX
  {
    Entry(|p.keyauth|, Pad(p.token, TOKEN_MAX), Pad(p.keyauth, KEYAUTH_MAX))
  }

  predicate Holdable(ps: seq<Pair>) {
    && |ps| <= SLOT_MAX
    && (forall i | 0 <= i < |ps| :: Storable(ps[i]))
    && (forall i, j | 0 <= i < j < |ps| :: ps[i].token != ps[j].token)
  }

  /** The one slot content that stands for these challenges; everything past them is zero. */
  function Enc(ps: seq<Pair>): (s: Slot)
    requires Holdable(ps)
    ensures Shaped(s)
  {
    Slot(|ps|, seq(SLOT_MAX, i requires 0 <= i < SLOT_MAX => if i < |ps| then Encoded(ps[i]) else BLANK))
  }

  function Index(ps: seq<Pair>, token: Bytes): (i: nat)
    ensures i <= |ps|
    ensures i < |ps| ==> ps[i].token == token
    ensures forall j | 0 <= j < i :: ps[j].token != token
  {
    if ps == [] then 0
    else if ps[0].token == token then 0
    else 1 + Index(ps[1..], token)
  }

  predicate Fits(ps: seq<Pair>, op: Op) {
    Acceptable(op) && (op.Set? ==> Index(ps, op.token) < |ps| || |ps| < SLOT_MAX)
  }

  function Edited(ps: seq<Pair>, op: Op): (r: seq<Pair>)
    requires Holdable(ps) && Fits(ps, op)
    ensures Holdable(r)
  {
    var i := Index(ps, op.token);
    match op
    case Set(t, k) => if i < |ps| then ps[i := Pair(t, k)] else ps + [Pair(t, k)]
    case Clear(t) => if i < |ps| then ps[i := ps[|ps| - 1]][..|ps| - 1] else ps
  }

  /** A history of publications, each of which had room. */
  predicate History(ops: seq<Op>)
    decreases |ops|, 0
  {
    ops == [] || (History(ops[..|ops| - 1]) && Fits(PairsAfter(ops[..|ops| - 1]), ops[|ops| - 1]))
  }

  function PairsAfter(ops: seq<Op>): (ps: seq<Pair>)
    requires History(ops)
    ensures Holdable(ps)
    decreases |ops|, 1
  {
    if ops == [] then [] else Edited(PairsAfter(ops[..|ops| - 1]), ops[|ops| - 1])
  }

  /** The same history read as plain map updates. */
  function MapAfter(ops: seq<Op>): map<Bytes, Bytes> {
    if ops == [] then map[]
    else
      var m := MapAfter(ops[..|ops| - 1]);
      match ops[|ops| - 1]
      case Set(t, k) => m[t := k]
      case Clear(t) => m - {t}
  }

  ghost predicate Means(ps: seq<Pair>, m: map<Bytes, Bytes>) {
    && (forall i | 0 <= i < |ps| :: ps[i].token in m && m[ps[i].token] == ps[i].keyauth)
    && (forall t | t in m :: exists i | 0 <= i < |ps| :: ps[i].token == t)
  }

  lemma ReplaceMeans(ps: seq<Pair>, m: map<Bytes, Bytes>, i: nat, p: Pair)
    requires i < |ps| && ps[i].token == p.token && Means(ps, m)
    requires forall j | 0 <= j < |ps| && j != i :: ps[j].token != p.token
    ensures Means(ps[i := p], m[p.token := p.keyauth])
  {
    var qs, m' := ps[i := p], m[p.token := p.keyauth];
    forall t | t in m' ensures exists j | 0 <= j < |qs| :: qs[j].token == t {
      assert t in m;
      var j :| 0 <= j < |ps| && ps[j].token == t;
      assert qs[j].token == t;
    }
  }

  lemma AppendMeans(ps: seq<Pair>, m: map<Bytes, Bytes>, p: Pair)
    requires Means(ps, m) && forall j | 0 <= j < |ps| :: ps[j].token != p.token
    ensures Means(ps + [p], m[p.token := p.keyauth])
  {
    var qs, m' := ps + [p], m[p.token := p.keyauth];
    forall t | t in m' ensures exists j | 0 <= j < |qs| :: qs[j].token == t {
      if t == p.token {
        assert qs[|ps|].token == t;
      } else {
        var j :| 0 <= j < |ps| && ps[j].token == t;
        assert qs[j].token == t;
      }
    }
  }

  lemma SetMeans(ps: seq<Pair>, m: map<Bytes, Bytes>, op: Op)
    requires Holdable(ps) && op.Set? && Fits(ps, op) && Means(ps, m)
    ensures Means(Edited(ps, op), m[op.token := op.keyauth])
  {
    var i := Index(ps, op.token);
    if i < |ps| {
      ReplaceMeans(ps, m, i, Pair(op.token, op.keyauth));
    } else {
      AppendMeans(ps, m, Pair(op.token, op.keyauth));
    }
  }

  /** The last pair fills the gap. */
  lemma FillMeans(ps: seq<Pair>, m: map<Bytes, Bytes>, i: nat)
    requires i < |ps| && Means(ps, m) && forall j | 0 <= j < |ps| && j != i :: ps[j].token != ps[i].token
    ensures Means(ps[i := ps[|ps| - 1]][..|ps| - 1], m - {ps[i].token})
  {
    var n := |ps| - 1;
    var qs, less := ps[i := ps[n]][..n], m - {ps[i].token};
    forall t | t in less ensures exists j | 0 <= j < |qs| :: qs[j].token == t {
      var j :| 0 <= j < |ps| && ps[j].token == t;
      assert qs[if j == n then i else j].token == t;
    }
    forall j | 0 <= j < |qs| ensures qs[j].token in less && less[qs[j].token] == qs[j].keyauth {
      assert qs[j] == ps[if j == i then n else j];
    }
  }

  lemma ClearMeans(ps: seq<Pair>, m: map<Bytes, Bytes>, op: Op)
    requires Holdable(ps) && op.Clear? && Fits(ps, op) && Means(ps, m)
    ensures Means(Edited(ps, op), m - {op.token})
  {
    var i := Index(ps, op.token);
    if i < |ps| {
      FillMeans(ps, m, i);
    } else {
      assert m - {op.token} == m;
    }
  }

  /** A published slot is the map that the publications before it produce. */
  lemma {:induction false} HistoryMeans(ops: seq<Op>)
    requires History(ops)
    ensures Means(PairsAfter(ops), MapAfter(ops))
  {
    if ops != [] {
      HistoryMeans(ops[..|ops| - 1]);
      var ps, m, op := PairsAfter(ops[..|ops| - 1]), MapAfter(ops[..|ops| - 1]), ops[|ops| - 1];
      if op.Set? { SetMeans(ps, m, op); } else { ClearMeans(ps, m, op); }
    }
  }

  // ---- comparing tokens byte by byte ----

  function ByteAt(s: Bytes, k: nat): nat { if k < |s| then s[k] else 0 }

  /** strcmp() of a token buffer with `s`, from position k on, equal or not. */
  predicate SameFrom(buffer: Bytes, s: Bytes, k: nat)
    decreases |buffer| - k
  {
    k >= |buffer| || (buffer[k] == ByteAt(s, k) && (buffer[k] == 0 || SameFrom(buffer, s, k + 1)))
  }

  lemma {:induction false} SameFromIsEquality(t: Bytes, s: Bytes, k: nat)
    requires CString(t) && CString(s) && |t| < TOKEN_MAX
    requires k <= |t| && k <= |s| && t[..k] == s[..k]
    ensures SameFrom(Pad(t, TOKEN_MAX), s, k) <==> t == s
    decreases |t| - k
  {
    var b := Pad(t, TOKEN_MAX);
    if k < |t| {
      assert b[k] == t[k] && t[k] in t;
      if k < |s| && s[k] == t[k] {
        assert t[..k + 1] == t[..k] + [t[k]] && s[..k + 1] == s[..k] + [s[k]];
        SameFromIsEquality(t, s, k + 1);
      }
    } else {
      assert b[k] == 0;
      if k < |s| { assert s[k] in s; } else { assert t == t[..k] && s == s[..k]; }
    }
  }

  /** The writer's scan of its draft for the token. */
  function Found(s: Slot, token: Bytes, i: nat): (r: nat)
    requires Shaped(s) && s.count <= SLOT_MAX && i <= s.count
    decreases s.count - i
    ensures i <= r <= s.count
  {
    if i == s.count || SameFrom(s.entries[i].token, token, 0) then i else Found(s, token, i + 1)
  }

  lemma {:induction false} FoundIsIndex(ps: seq<Pair>, token: Bytes, i: nat)
    requires Holdable(ps) && CString(token) && i <= Index(ps, token)
    ensures Found(Enc(ps), token, i) == Index(ps, token)
    decreases |ps| - i
  {
    if i < |ps| {
      SameFromIsEquality(ps[i].token, token, 0);
      if ps[i].token != token {
        FoundIsIndex(ps, token, i + 1);
      }
    }
  }

  // ---- the writer's edits, cell by cell ----

  datatype Write = Write(cell: Cell, value: nat)

  predicate Writable(ws: seq<Write>) { forall w | w in ws :: InSlot(w.cell) }

  function Written(s: Slot, ws: seq<Write>): (t: Slot)
    requires Shaped(s) && Writable(ws)
    ensures Shaped(t)
    decreases |ws|
  {
    if ws == [] then s else Written(Put(s, ws[0].cell, ws[0].value), ws[1..])
  }

  lemma {:induction false} WrittenConcat(s: Slot, a: seq<Write>, b: seq<Write>)
    requires Shaped(s) && Writable(a) && Writable(b)
    ensures Writable(a + b) && Written(s, a + b) == Written(Written(s, a), b)
    decreases |a|
  {
    if a == [] {
      assert a + b == b;
    } else {
      assert (a + b)[1..] == a[1..] + b;
      WrittenConcat(Put(s, a[0].cell, a[0].value), a[1..], b);
    }
  }

  function TokenWrites(i: nat, bytes: Bytes): (ws: seq<Write>)
    requires i < SLOT_MAX && |bytes| <= TOKEN_MAX
    ensures Writable(ws)
  {
    if bytes == [] then []
    else TokenWrites(i, bytes[..|bytes| - 1]) + [Write(Token(i, |bytes| - 1), bytes[|bytes| - 1])]
  }

  function KeyWrites(i: nat, bytes: Bytes): (ws: seq<Write>)
    requires i < SLOT_MAX && |bytes| <= KEYAUTH_MAX
    ensures Writable(ws)
  {
    if bytes == [] then []
    else KeyWrites(i, bytes[..|bytes| - 1]) + [Write(Key(i, |bytes| - 1), bytes[|bytes| - 1])]
  }

  lemma {:induction false} TokenWritten(s: Slot, i: nat, bytes: Bytes)
    requires Shaped(s) && i < SLOT_MAX && |bytes| <= TOKEN_MAX
    ensures Written(s, TokenWrites(i, bytes))
         == s.(entries := s.entries[i := s.entries[i].(token := bytes + s.entries[i].token[|bytes|..])])
  {
    var e := s.entries[i];
    if bytes == [] {
      assert bytes + e.token[0..] == e.token;
      assert s.entries[i := e] == s.entries;
    } else {
      var n := |bytes| - 1;
      TokenWritten(s, i, bytes[..n]);
      WrittenConcat(s, TokenWrites(i, bytes[..n]), [Write(Token(i, n), bytes[n])]);
      var mid := bytes[..n] + e.token[n..];
      assert mid[n := bytes[n]] == bytes + e.token[n + 1..];
      assert s.entries[i := e.(token := mid)][i := e.(token := mid[n := bytes[n]])]
          == s.entries[i := e.(token := bytes + e.token[n + 1..])];
    }
  }

  lemma {:induction false} KeyWritten(s: Slot, i: nat, bytes: Bytes)
    requires Shaped(s) && i < SLOT_MAX && |bytes| <= KEYAUTH_MAX
    ensures Written(s, KeyWrites(i, bytes))
         == s.(entries := s.entries[i := s.entries[i].(keyauth := bytes + s.entries[i].keyauth[|bytes|..])])
  {
    var e := s.entries[i];
    if bytes == [] {
      assert bytes + e.keyauth[0..] == e.keyauth;
      assert s.entries[i := e] == s.entries;
    } else {
      var n := |bytes| - 1;
      KeyWritten(s, i, bytes[..n]);
      WrittenConcat(s, KeyWrites(i, bytes[..n]), [Write(Key(i, n), bytes[n])]);
      var mid := bytes[..n] + e.keyauth[n..];
      assert mid[n := bytes[n]] == bytes + e.keyauth[n + 1..];
      assert s.entries[i := e.(keyauth := mid)][i := e.(keyauth := mid[n := bytes[n]])]
          == s.entries[i := e.(keyauth := bytes + e.keyauth[n + 1..])];
    }
  }

  /** Overwrites the first |token| and |key| cells of one entry, then its length. */
  function EntryWrites(i: nat, token: Bytes, key: Bytes, len: nat): (ws: seq<Write>)
    requires i < SLOT_MAX && |token| <= TOKEN_MAX && |key| <= KEYAUTH_MAX
    ensures Writable(ws)
  {
    TokenWrites(i, token) + KeyWrites(i, key) + [Write(Len(i), len)]
  }

  lemma EntryWritten(s: Slot, i: nat, token: Bytes, key: Bytes, len: nat)
    requires Shaped(s) && i < SLOT_MAX && |token| <= TOKEN_MAX && |key| <= KEYAUTH_MAX
    ensures Written(s, EntryWrites(i, token, key, len))
         == s.(entries := s.entries[i := Entry(len, token + s.entries[i].token[|token|..],
                                               key + s.entries[i].keyauth[|key|..])])
  {
    var tw, kw, lw := TokenWrites(i, token), KeyWrites(i, key), [Write(Len(i), len)];
    TokenWritten(s, i, token);
    var s1 := Written(s, tw);
    KeyWritten(s1, i, key);
    var s2 := Written(s1, kw);
    WrittenConcat(s, tw, kw);
    WrittenConcat(s, tw + kw, lw);
    assert Written(s2, lw) == Put(s2, Len(i), len);
    assert Put(s2, Len(i), len).entries == s.entries[i := Entry(len, token + s.entries[i].token[|token|..],
                                                                 key + s.entries[i].keyauth[|key|..])];
  }

  predicate Refused(op: Op, draft: Slot)
    requires Shaped(draft) && draft.count <= SLOT_MAX
  {
    op.Set? && Found(draft, op.token, 0) == draft.count == SLOT_MAX
  }

  /** An entry is zeroed and then filled. */
  function PairWrites(i: nat, p: Pair): (ws: seq<Write>)
    requires i < SLOT_MAX && Storable(p)
    ensures Writable(ws)
  {
    EntryWrites(i, Zeros(TOKEN_MAX), Zeros(KEYAUTH_MAX), 0)
    + EntryWrites(i, p.token + [0], p.keyauth + [0], |p.keyauth|)
  }

  /** Everything set() or clear() writes to a finished copy, in the order it is written. */
  function Program(op: Op, draft: Slot): (ws: seq<Write>)
    requires Shaped(draft) && draft.count <= SLOT_MAX && Acceptable(op) && !Refused(op, draft)
    ensures Writable(ws)
  {
    var i := Found(draft, op.token, 0);
    match op
    case Set(t, k) =>
      (if i == draft.count then [Write(Count, draft.count + 1)] else []) + PairWrites(i, Pair(t, k))
    case Clear(_) =>
      if i == draft.count then []
      else
        var last := draft.entries[draft.count - 1];
        EntryWrites(i, last.token, last.keyauth, last.len)
        + EntryWrites(draft.count - 1, Zeros(TOKEN_MAX), Zeros(KEYAUTH_MAX), 0)
        + [Write(Count, draft.count - 1)]
  }

  /** Zeroing an entry and then writing token, key and length leaves the encoded pair. */
  lemma EntryReplaced(s: Slot, i: nat, p: Pair)
    requires Shaped(s) && i < SLOT_MAX && Storable(p)
    ensures Written(s, PairWrites(i, p)) == s.(entries := s.entries[i := Encoded(p)])
  {
    var zw := EntryWrites(i, Zeros(TOKEN_MAX), Zeros(KEYAUTH_MAX), 0);
    var pw := EntryWrites(i, p.token + [0], p.keyauth + [0], |p.keyauth|);
    EntryWritten(s, i, Zeros(TOKEN_MAX), Zeros(KEYAUTH_MAX), 0);
    var s1 := Written(s, zw);
    EntryWritten(s1, i, p.token + [0], p.keyauth + [0], |p.keyauth|);
    WrittenConcat(s, zw, pw);
    assert s1.entries[i].token == Zeros(TOKEN_MAX) && s1.entries[i].keyauth == Zeros(KEYAUTH_MAX);
    assert p.token + [0] + Zeros(TOKEN_MAX)[|p.token| + 1..] == Pad(p.token, TOKEN_MAX);
    assert p.keyauth + [0] + Zeros(KEYAUTH_MAX)[|p.keyauth| + 1..] == Pad(p.keyauth, KEYAUTH_MAX);
    assert Written(s, zw + pw).entries == s.entries[i := Encoded(p)];
  }

  lemma EncSet(ps: seq<Pair>, op: Op)
    requires Holdable(ps) && op.Set? && Fits(ps, op)
    ensures var i := Index(ps, op.token);
      Enc(Edited(ps, op)) == Slot(if i < |ps| then |ps| else |ps| + 1,
                                  Enc(ps).entries[i := Encoded(Pair(op.token, op.keyauth))])
  {
    var i := Index(ps, op.token);
    var qs := Edited(ps, op);
    var es := Enc(ps).entries[i := Encoded(Pair(op.token, op.keyauth))];
    forall j | 0 <= j < SLOT_MAX ensures Enc(qs).entries[j] == es[j] {
      if j < |qs| && j != i { assert qs[j] == ps[j]; }
    }
    assert Enc(qs).entries == es;
  }

  lemma SetProgram(ps: seq<Pair>, op: Op)
    requires Holdable(ps) && op.Set? && Fits(ps, op)
    ensures !Refused(op, Enc(ps))
    ensures Written(Enc(ps), Program(op, Enc(ps))) == Enc(Edited(ps, op))
  {
    var s, i, p := Enc(ps), Index(ps, op.token), Pair(op.token, op.keyauth);
    FoundIsIndex(ps, op.token, 0);
    EncSet(ps, op);
    var ws := PairWrites(i, p);
    if i == |ps| {
      var cw := [Write(Count, |ps| + 1)];
      assert Written(s, cw) == Put(s, Count, |ps| + 1);
      EntryReplaced(Put(s, Count, |ps| + 1), i, p);
      WrittenConcat(s, cw, ws);
    } else {
      EntryReplaced(s, i, p);
      assert [] + ws == ws;
    }
  }

  lemma EncClear(ps: seq<Pair>, op: Op)
    requires Holdable(ps) && op.Clear? && Fits(ps, op) && Index(ps, op.token) < |ps|
    ensures var n, es := |ps| - 1, Enc(ps).entries;
      Enc(Edited(ps, op)) == Slot(n, es[Index(ps, op.token) := es[n]][n := BLANK])
  {
    var i, n, es := Index(ps, op.token), |ps| - 1, Enc(ps).entries;
    var qs := Edited(ps, op);
    forall j | 0 <= j < SLOT_MAX
        ensures Enc(qs).entries[j] == if j == n then BLANK else if j == i then es[n] else es[j] {
      ClearAt(ps, qs, i, j);
    }
    SameEntries(Enc(qs).entries, es, i, n);
  }

  lemma ClearAt(ps: seq<Pair>, qs: seq<Pair>, i: nat, j: nat)
    requires Holdable(ps) && Holdable(qs) && i < |ps| && |qs| == |ps| - 1 && j < SLOT_MAX
    requires forall k | 0 <= k < |qs| :: qs[k] == if k == i then ps[|ps| - 1] else ps[k]
    ensures var n, es := |ps| - 1, Enc(ps).entries;
      Enc(qs).entries[j] == if j == n then BLANK else if j == i then es[n] else es[j]
  {
    EncAt(ps, j);
    EncAt(ps, |ps| - 1);
    EncAt(qs, j);
  }

  lemma SameEntries(xs: seq<Entry>, es: seq<Entry>, i: nat, n: nat)
    requires |xs| == |es| && i <= n < |es|
    requires forall j | 0 <= j < |es| :: xs[j] == if j == n then BLANK else if j == i then es[n] else es[j]
    ensures xs == es[i := es[n]][n := BLANK]
  {
  }

  lemma EncAt(ps: seq<Pair>, j: nat)
    requires Holdable(ps) && j < SLOT_MAX
    ensures Enc(ps).entries[j] == if j < |ps| then Encoded(ps[j]) else BLANK
  {
  }

  /** Moving the last entry into the hole and zeroing the tail. */
  lemma EntryMoved(s: Slot, i: nat, n: nat)
    requires Shaped(s) && i <= n < SLOT_MAX
    ensures Written(s, EntryWrites(i, s.entries[n].token, s.entries[n].keyauth, s.entries[n].len)
                       + EntryWrites(n, Zeros(TOKEN_MAX), Zeros(KEYAUTH_MAX), 0))
         == s.(entries := s.entries[i := s.entries[n]][n := BLANK])
  {
    var last := s.entries[n];
    var mw := EntryWrites(i, last.token, last.keyauth, last.len);
    var zw := EntryWrites(n, Zeros(TOKEN_MAX), Zeros(KEYAUTH_MAX), 0);
    EntryWritten(s, i, last.token, last.keyauth, last.len);
    assert last.token + s.entries[i].token[TOKEN_MAX..] == last.token;
    assert last.keyauth + s.entries[i].keyauth[KEYAUTH_MAX..] == last.keyauth;
    var s1 := Written(s, mw);
    EntryWritten(s1, n, Zeros(TOKEN_MAX), Zeros(KEYAUTH_MAX), 0);
    assert Zeros(TOKEN_MAX) + s1.entries[n].token[TOKEN_MAX..] == Zeros(TOKEN_MAX);
    assert Zeros(KEYAUTH_MAX) + s1.entries[n].keyauth[KEYAUTH_MAX..] == Zeros(KEYAUTH_MAX);
    WrittenConcat(s, mw, zw);
  }

  lemma ClearProgram(ps: seq<Pair>, op: Op)
    requires Holdable(ps) && op.Clear? && Fits(ps, op)
    ensures Written(Enc(ps), Program(op, Enc(ps))) == Enc(Edited(ps, op))
  {
    var s := Enc(ps);
    FoundIsIndex(ps, op.token, 0);
    var i := Index(ps, op.token);
    if i < |ps| {
      var n := |ps| - 1;
      EncClear(ps, op);
      EntryMoved(s, i, n);
      var ws := EntryWrites(i, s.entries[n].token, s.entries[n].keyauth, s.entries[n].len)
                + EntryWrites(n, Zeros(TOKEN_MAX), Zeros(KEYAUTH_MAX), 0);
      WrittenConcat(s, ws, [Write(Count, n)]);
      var s2 := Written(s, ws);
      assert Written(s2, [Write(Count, n)]) == Put(s2, Count, n);
    }
  }

  /** The cell-by-cell program turns the copy into exactly the edited slot. */
  lemma ProgramEdits(ps: seq<Pair>, op: Op)
    requires Holdable(ps) && Fits(ps, op)
    ensures !Refused(op, Enc(ps))
    ensures Written(Enc(ps), Program(op, Enc(ps))) == Enc(Edited(ps, op))
  {
    if op.Set? { SetProgram(ps, op); } else { ClearProgram(ps, op); }
  }

  lemma NotRefusedFits(ps: seq<Pair>, op: Op)
    requires Holdable(ps) && Acceptable(op) && !Refused(op, Enc(ps))
    ensures Fits(ps, op)
  {
    FoundIsIndex(ps, op.token, 0);
  }
}
