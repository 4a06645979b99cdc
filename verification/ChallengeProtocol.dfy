/**
 The concurrent life of the challenge store: every interleaving of writers, readers and
 writer deaths, one memory cell per step.  The history of publications is kept beside the
 real state; the generation counter is its length.
 */
module ChallengeProtocol {
  import opened Shared
  import opened ChallengeStore

  datatype Writer =
    | WIdle
    | WLocked(op: Op)                                 // holds the lock; about to read the generation
    | WCopying(op: Op, gen: nat, left: set<Cell>)     // copying the published slot into the draft
    | WEditing(op: Op, gen: nat, todo: seq<Write>)    // editing the draft, then publishing
    | WDone                                           // published or refused; about to unlock
    | WDead

  /** A reader's call: lookup(token, out[room]) or tokens(out[max]). */
  datatype Request = Lookup(token: Bytes, room: nat) | Tokens(max: nat)

  datatype Pc =
    | Begin                                                 // about to load the generation
    | ReadCount
    | Scan(i: nat, count: nat)                              // about to judge entry i, or the miss when i == count
    | Match(i: nat, count: nat, len: nat, k: nat)           // comparing byte k of entry i's token
    | Copy(i: nat, count: nat, len: nat, got: Bytes)        // copying the key authorization, then checking
    | List(count: nat, done: seq<Bytes>, got: Bytes)        // copying token number |done|, then checking

  datatype Reply =
    | Hit(keyauth: Bytes, gen: nat)
    | Miss(gen: nat)
    | Listed(tokens: seq<Bytes>, gen: nat)
    | GaveUp                                                // every attempt was overtaken, or the call was malformed

  /** `start` and `end` are the generations at the call and at the return. */
  datatype Reader =
    | RIdle
    | Reading(req: Request, start: nat, attempt: nat, gen: nat, pc: Pc)
    | Replied(req: Request, start: nat, end: nat, reply: Reply)

  datatype State = State(gen: nat, lock: Option<nat>, slots: seq<Slot>, committed: seq<Op>,
                         writers: seq<Writer>, readers: seq<Reader>)

  datatype Action =
    | WStart(w: nat, op: Op)
    | WCopy(w: nat, cell: Cell)
    | WStep(w: nat)
    | WDie(w: nat)
    | RCall(r: nat, req: Request)
    | RStep(r: nat)

  function Init(writers: nat, readers: nat): State {
    State(0, None, [Enc([]), Enc([])], [], seq(writers, _ => WIdle), seq(readers, _ => RIdle))
  }

  predicate SlotsShaped(s: State) {
    |s.slots| == 2 && Shaped(s.slots[0]) && Shaped(s.slots[1])
  }

  function Published(s: State, gen: nat): Slot
    requires SlotsShaped(s)
  {
    s.slots[gen % 2]
  }

  function Draft(s: State, gen: nat): Slot
    requires SlotsShaped(s)
  {
    s.slots[(gen + 1) % 2]
  }

  function WithDraft(s: State, gen: nat, d: Slot): State
    requires SlotsShaped(s)
  {
    s.(slots := s.slots[(gen + 1) % 2 := d])
  }

  function WithWriter(s: State, w: nat, x: Writer): State
    requires w < |s.writers|
  {
    s.(writers := s.writers[w := x])
  }

  // ---- readers ----

  function Retry(s: State, r: Reader): Reader
    requires r.Reading?
  {
    if r.attempt + 1 == ATTEMPTS then Replied(r.req, r.start, s.gen, GaveUp)
    else Reading(r.req, r.start, r.attempt + 1, r.gen, Begin)
  }

  /** Memory safety of a reader: whatever it has read, it stays inside the slot and inside `out`. */
  predicate InBounds(r: Reader) {
    r.Reading? ==>
      && r.attempt < ATTEMPTS
      && match r.pc
         case Begin => true
         case ReadCount => true
         case Scan(i, count) => r.req.Lookup? && i <= count <= SLOT_MAX
         case Match(i, count, len, k) =>
           r.req.Lookup? && i < count <= SLOT_MAX && k < TOKEN_MAX && len < KEYAUTH_MAX && len < r.req.room
         case Copy(i, count, len, got) =>
           r.req.Lookup? && i < count <= SLOT_MAX && |got| <= len < KEYAUTH_MAX && len < r.req.room
         case List(count, done, got) =>
           && r.req.Tokens? && |done| <= count <= SLOT_MAX && count <= r.req.max && |got| <= TOKEN_MAX
           && forall j | 0 <= j < |done| :: |done[j]| == TOKEN_MAX
  }

  function ReaderNext(s: State, r: Reader): (n: Reader)
    requires SlotsShaped(s) && r.Reading? && InBounds(r)
    ensures InBounds(n)
  {
    var slot := Published(s, r.gen);
    match r.pc
    case Begin => r.(gen := s.gen, pc := ReadCount)
    case ReadCount =>
      if slot.count > SLOT_MAX then Retry(s, r)
      else if r.req.Lookup? then r.(pc := Scan(0, slot.count))
      else r.(pc := List(Min(slot.count, r.req.max), [], []))
    case Scan(i, count) =>
      if i == count then
        if s.gen == r.gen then Replied(r.req, r.start, s.gen, Miss(r.gen)) else Retry(s, r)
      else
        var len := Get(slot, Len(i));
        if len == 0 || len >= KEYAUTH_MAX || len >= r.req.room then r.(pc := Scan(i + 1, count))
        else r.(pc := Match(i, count, len, 0))
    case Match(i, count, len, k) =>
      var b := Get(slot, Token(i, k));
      if b != ByteAt(r.req.token, k) then r.(pc := Scan(i + 1, count))
      else if b == 0 || k + 1 == TOKEN_MAX then r.(pc := Copy(i, count, len, []))
      else r.(pc := Match(i, count, len, k + 1))
    case Copy(i, count, len, got) =>
      if |got| == len then
        if s.gen == r.gen then Replied(r.req, r.start, s.gen, Hit(got, r.gen)) else Retry(s, r)
      else r.(pc := Copy(i, count, len, got + [Get(slot, Key(i, |got|))]))
    case List(count, done, got) =>
      if |done| == count then
        if s.gen == r.gen then Replied(r.req, r.start, s.gen, Listed(done, r.gen)) else Retry(s, r)
      else if |got| == TOKEN_MAX then r.(pc := List(count, done + [got[TOKEN_MAX - 1 := 0]], []))
      else r.(pc := List(count, done, got + [Get(slot, Token(|done|, |got|))]))
  }

  function Called(s: State, req: Request): Reader {
    if (req.Lookup? && (req.token == [] || !CString(req.token) || req.room == 0)) || (req.Tokens? && req.max == 0)
    then Replied(req, s.gen, s.gen, GaveUp)
    else Reading(req, s.gen, 0, s.gen, Begin)
  }

  // ---- writers ----

  ghost predicate WriterEnabled(s: State, w: nat)
    requires SlotsShaped(s)
  {
    && w < |s.writers|
    && match s.writers[w]
       case WLocked(_) => true
       case WCopying(op, gen, left) => left == {} && Acceptable(op) && Draft(s, gen).count <= SLOT_MAX
       case WEditing(_, _, todo) => Writable(todo)
       case WDone => true
       case _ => false
  }

  ghost function WriterNext(s: State, w: nat): State
    requires SlotsShaped(s) && WriterEnabled(s, w)
  {
    var x := s.writers[w];
    if x.WLocked? then WithWriter(s, w, WCopying(x.op, s.gen, AllCells()))
    else if x.WCopying? then
      var draft := Draft(s, x.gen);
      WithWriter(s, w, if Refused(x.op, draft) then WDone else WEditing(x.op, x.gen, Program(x.op, draft)))
    else if x.WEditing? then
      if x.todo != [] then
        WithWriter(WithDraft(s, x.gen, Put(Draft(s, x.gen), x.todo[0].cell, x.todo[0].value)), w,
                   x.(todo := x.todo[1..]))
      else if s.gen == x.gen then
        WithWriter(s.(gen := x.gen + 1, committed := s.committed + [x.op]), w, WDone)
      else WithWriter(s, w, WDone)
    else WithWriter(s.(lock := None), w, WIdle)
  }

  // ---- steps and runs ----

  ghost predicate Enabled(s: State, a: Action)
  {
    && SlotsShaped(s)
    && match a
       case WStart(w, _) => w < |s.writers| && s.writers[w].WIdle?
       case WCopy(w, c) =>
         && w < |s.writers| && s.writers[w].WCopying?
         && c in s.writers[w].left && InSlot(c)
       case WStep(w) => WriterEnabled(s, w)
       case WDie(w) => w < |s.writers| && !s.writers[w].WDead?
       case RCall(r, _) => r < |s.readers| && !s.readers[r].Reading?
       case RStep(r) => r < |s.readers| && s.readers[r].Reading? && InBounds(s.readers[r])
  }

  ghost function Perform(s: State, a: Action): State
    requires Enabled(s, a)
  {
    match a
    case WStart(w, op) =>
      if Acceptable(op) && s.lock == None then WithWriter(s.(lock := Some(w)), w, WLocked(op)) else s
    case WCopy(w, c) =>
      var x := s.writers[w];
      WithWriter(WithDraft(s, x.gen, Put(Draft(s, x.gen), c, Get(Published(s, x.gen), c))), w,
                 x.(left := x.left - {c}))
    case WStep(w) => WriterNext(s, w)
    case WDie(w) => WithWriter(s, w, WDead)
    case RCall(r, req) => s.(readers := s.readers[r := Called(s, req)])
    case RStep(r) => s.(readers := s.readers[r := ReaderNext(s, s.readers[r])])
  }

  ghost predicate IsRun(s: State, run: seq<Action>, t: State)
    decreases |run|
  {
    if run == [] then s == t else Enabled(s, run[0]) && IsRun(Perform(s, run[0]), run[1..], t)
  }

  ghost predicate Reachable(s: State) {
    exists writers: nat, readers: nat, run: seq<Action> :: IsRun(Init(writers, readers), run, s)
  }

  // ---- what a reply means ----

  /** The tokens a snapshot lists, as the buffers a reader gets them in. */
  function Buffers(ps: seq<Pair>): (bs: seq<Bytes>)
    requires forall i | 0 <= i < |ps| :: |ps[i].token| < TOKEN_MAX
    ensures |bs| == |ps|
    ensures forall i | 0 <= i < |bs| :: bs[i] == Pad(ps[i].token, TOKEN_MAX)
  {
    seq(|ps|, i requires 0 <= i < |ps| => Pad(ps[i].token, TOKEN_MAX))
  }

  /** A call that is not looked at: no token, not a C string, or nowhere to put the answer. */
  predicate Malformed(req: Request) {
    match req
    case Lookup(token, room) => token == [] || !CString(token) || room == 0
    case Tokens(max) => max == 0
  }

  /** The reply is what the store held at one generation between the call and the return; there is none only
      for a malformed call, or when each of the attempts was overtaken by another publication. */
  ghost predicate Linearized(ops: seq<Op>, req: Request, start: nat, end: nat, reply: Reply)
    requires History(ops)
  {
    match reply
    case GaveUp => Malformed(req) || start + ATTEMPTS <= end <= |ops|
    case Hit(keyauth, g) =>
      && start <= g <= end <= |ops| && req.Lookup?
      && var m := MapAfter(ops[..g]);
         req.token in m && m[req.token] == keyauth && |keyauth| < req.room
    case Miss(g) =>
      && start <= g <= end <= |ops| && req.Lookup?
      && var m := MapAfter(ops[..g]);
         req.token !in m || |m[req.token]| >= req.room
    case Listed(tokens, g) =>
      && start <= g <= end <= |ops| && req.Tokens?
      && History(ops[..g])
      && var ps := PairsAfter(ops[..g]);
         tokens == Buffers(ps[..Min(|ps|, req.max)])
  }

  // ---- the invariant ----

  predicate Skipped(p: Pair, req: Request)
    requires req.Lookup?
  {
    p.token != req.token || |p.keyauth| >= req.room
  }

  /** What a reader has learned, when its generation is still the published one. */
  ghost predicate Learned(ps: seq<Pair>, r: Reader)
    requires Holdable(ps) && r.Reading? && InBounds(r)
  {
    match r.pc
    case Begin => true
    case ReadCount => true
    case Scan(i, count) =>
      count == |ps| && forall j | 0 <= j < i :: Skipped(ps[j], r.req)
    case Match(i, count, len, k) =>
      && count == |ps| && len == |ps[i].keyauth|
      && (forall j | 0 <= j < i :: Skipped(ps[j], r.req))
      && k <= |ps[i].token| && k <= |r.req.token| && ps[i].token[..k] == r.req.token[..k]
    case Copy(i, count, len, got) =>
      && count == |ps| && len == |ps[i].keyauth| && ps[i].token == r.req.token
      && got == ps[i].keyauth[..|got|]
    case List(count, done, got) =>
      && count == Min(|ps|, r.req.max)
      && done == Buffers(ps[..|done|])
      && (|done| < count ==> got == Pad(ps[|done|].token, TOKEN_MAX)[..|got|])
  }

  ghost predicate ReaderOk(ops: seq<Op>, r: Reader)
    requires History(ops)
  {
    match r
    case RIdle => true
    case Reading(req, start, attempt, gen, pc) =>
      && InBounds(r) && start <= |ops|
      && (req.Lookup? ==> req.token != [] && CString(req.token))
      && (pc.Begin? ==> start + attempt <= |ops|)
      && (!pc.Begin? ==> start + attempt <= gen <= |ops| && (gen == |ops| ==> Learned(PairsAfter(ops), r)))
    case Replied(req, start, end, reply) => start <= end <= |ops| && Linearized(ops, req, start, end, reply)
  }

  ghost predicate WriterOk(s: State, w: nat)
    requires SlotsShaped(s) && History(s.committed) && w < |s.writers|
  {
    var ps := PairsAfter(s.committed);
    match s.writers[w]
    case WIdle => true
    case WDead => true
    case WDone => s.lock == Some(w)
    case WLocked(op) => s.lock == Some(w) && Acceptable(op)
    case WCopying(op, gen, left) =>
      && s.lock == Some(w) && Acceptable(op) && gen == s.gen
      && forall c | InSlot(c) && c !in left :: Get(Draft(s, gen), c) == Get(Published(s, gen), c)
    case WEditing(op, gen, todo) =>
      && s.lock == Some(w) && gen == s.gen && Fits(ps, op) && Writable(todo)
      && Written(Draft(s, gen), todo) == Enc(Edited(ps, op))
  }

  /** The published slot is what the publications so far produce. */
  ghost predicate Current(s: State) {
    && SlotsShaped(s)
    && History(s.committed)
    && s.gen == |s.committed|
    && Published(s, s.gen) == Enc(PairsAfter(s.committed))
  }

  ghost predicate Inv(s: State) {
    && Current(s)
    && (forall w | 0 <= w < |s.writers| :: WriterOk(s, w))
    && (forall r | 0 <= r < |s.readers| :: ReaderOk(s.committed, s.readers[r]))
  }

  lemma InitInv(writers: nat, readers: nat)
    ensures Inv(Init(writers, readers))
  {
  }

  // ---- readers keep it ----

  lemma {:induction false} HistoryPrefix(ops: seq<Op>, g: nat)
    requires History(ops) && g <= |ops|
    ensures History(ops[..g])
    decreases |ops|
  {
    if g == |ops| {
      assert ops[..g] == ops;
    } else {
      assert ops[..|ops| - 1][..g] == ops[..g];
      HistoryPrefix(ops[..|ops| - 1], g);
    }
  }

  lemma FoundMeans(ops: seq<Op>, i: nat)
    requires History(ops) && i < |PairsAfter(ops)|
    ensures var p := PairsAfter(ops)[i]; p.token in MapAfter(ops) && MapAfter(ops)[p.token] == p.keyauth
  {
    HistoryMeans(ops);
  }

  lemma AllSkipped(ops: seq<Op>, req: Request)
    requires History(ops) && req.Lookup?
    requires forall j | 0 <= j < |PairsAfter(ops)| :: Skipped(PairsAfter(ops)[j], req)
    ensures req.token in MapAfter(ops) ==> |MapAfter(ops)[req.token]| >= req.room
  {
    HistoryMeans(ops);
    var ps := PairsAfter(ops);
    if req.token in MapAfter(ops) {
      var i :| 0 <= i < |ps| && ps[i].token == req.token;
      assert Skipped(ps[i], req);
    }
  }

  /** The byte a reader compares is the one of the token it is at. */
  lemma MatchedByte(s: State, r: Reader, i: nat, k: nat)
    requires Current(s) && r.Reading? && r.pc.Match? && ReaderOk(s.committed, r) && r.gen == s.gen
    requires i == r.pc.i && k == r.pc.k
    ensures var ps := PairsAfter(s.committed);
      i < |ps| && k < TOKEN_MAX && Get(Published(s, r.gen), Token(i, k)) == Pad(ps[i].token, TOKEN_MAX)[k]
  {
  }

  lemma MatchLearns(s: State, r: Reader)
    requires Current(s) && r.Reading? && r.pc.Match? && ReaderOk(s.committed, r) && r.gen == s.gen
    ensures var n := ReaderNext(s, r); n.Reading? && Learned(PairsAfter(s.committed), n)
  {
    var Match(i, count, len, k) := r.pc;
    MatchedByte(s, r, i, k);
    MatchByte(PairsAfter(s.committed)[i].token, r.req.token, k, Get(Published(s, r.gen), Token(i, k)));
  }

  /** One byte of a token buffer, compared with the byte asked for. */
  lemma MatchByte(t: Bytes, q: Bytes, k: nat, b: nat)
    requires CString(t) && CString(q) && |t| < TOKEN_MAX && k <= |t| && k <= |q| && t[..k] == q[..k]
    requires b == Pad(t, TOKEN_MAX)[k]
    ensures b != ByteAt(q, k) ==> t != q
    ensures b == ByteAt(q, k) == 0 ==> t == q
    ensures b == ByteAt(q, k) != 0 ==> k < |t| && k < |q| && t[..k + 1] == q[..k + 1]
  {
    if k < |t| { assert b == t[k] && t[k] in t; }
    if k < |q| { assert q[k] in q; }
    if b == ByteAt(q, k) {
      if b == 0 { assert t == t[..k] && q == q[..k]; }
      else { assert t[..k + 1] == t[..k] + [t[k]] && q[..k + 1] == q[..k] + [q[k]]; }
    }
  }

  /** A whole buffer is read: it is the next token's. */
  lemma ListAdds(s: State, r: Reader)
    requires Current(s) && r.Reading? && r.pc.List? && ReaderOk(s.committed, r) && r.gen == s.gen
    requires |r.pc.done| < r.pc.count && |r.pc.got| == TOKEN_MAX
    ensures var n := ReaderNext(s, r); n.Reading? ==> Learned(PairsAfter(s.committed), n)
  {
    var ps := PairsAfter(s.committed);
    var List(count, done, got) := r.pc;
    var b := Pad(ps[|done|].token, TOKEN_MAX);
    assert got == b && b[TOKEN_MAX - 1] == 0;
    assert got[TOKEN_MAX - 1 := 0] == b;
    assert done + [b] == Buffers(ps[..|done| + 1]);
  }

  /** One more byte of the next token's buffer is read. */
  lemma ListReads(s: State, r: Reader)
    requires Current(s) && r.Reading? && r.pc.List? && ReaderOk(s.committed, r) && r.gen == s.gen
    requires |r.pc.done| < r.pc.count && |r.pc.got| < TOKEN_MAX
    ensures var n := ReaderNext(s, r); n.Reading? ==> Learned(PairsAfter(s.committed), n)
  {
    var List(count, done, got) := r.pc;
    var b := Pad(PairsAfter(s.committed)[|done|].token, TOKEN_MAX);
    assert Get(Published(s, r.gen), Token(|done|, |got|)) == b[|got|];
    assert b[..|got| + 1] == b[..|got|] + [b[|got|]];
  }

  lemma ListLearns(s: State, r: Reader)
    requires Current(s) && r.Reading? && r.pc.List? && ReaderOk(s.committed, r) && r.gen == s.gen
    ensures var n := ReaderNext(s, r); n.Reading? ==> Learned(PairsAfter(s.committed), n)
  {
    if |r.pc.done| < r.pc.count {
      if |r.pc.got| == TOKEN_MAX { ListAdds(s, r); } else { ListReads(s, r); }
    }
  }

  lemma CopyLearns(s: State, r: Reader)
    requires Current(s) && r.Reading? && r.pc.Copy? && ReaderOk(s.committed, r) && r.gen == s.gen
    ensures var n := ReaderNext(s, r); n.Reading? ==> Learned(PairsAfter(s.committed), n)
  {
    var ps := PairsAfter(s.committed);
    var Copy(i, count, len, got) := r.pc;
    if |got| < len {
      var key := ps[i].keyauth;
      assert Get(Published(s, r.gen), Key(i, |got|)) == Pad(key, KEYAUTH_MAX)[|got|] == key[|got|];
      assert key[..|got| + 1] == key[..|got|] + [key[|got|]];
    }
  }

  /** The next entry is skipped for its length, or its token is compared. */
  lemma ScanLearns(s: State, r: Reader)
    requires Current(s) && r.Reading? && r.pc.Scan? && ReaderOk(s.committed, r) && r.gen == s.gen
    ensures var n := ReaderNext(s, r); n.Reading? ==> Learned(PairsAfter(s.committed), n)
  {
    if r.pc.i < r.pc.count {
      assert Get(Published(s, r.gen), Len(r.pc.i)) == |PairsAfter(s.committed)[r.pc.i].keyauth|;
    }
  }

  lemma CountLearns(s: State, r: Reader)
    requires Current(s) && r.Reading? && r.pc.ReadCount? && ReaderOk(s.committed, r) && r.gen == s.gen
    ensures var n := ReaderNext(s, r); n.Reading? ==> Learned(PairsAfter(s.committed), n)
  {
    assert Buffers(PairsAfter(s.committed)[..0]) == [];
  }

  lemma LookupLearns(s: State, r: Reader)
    requires Current(s) && r.Reading? && ReaderOk(s.committed, r) && r.gen == s.gen
    requires r.pc.Scan? || r.pc.Copy? || r.pc.ReadCount?
    ensures var n := ReaderNext(s, r); n.Reading? ==> Learned(PairsAfter(s.committed), n)
  {
    if r.pc.Copy? {
      CopyLearns(s, r);
    } else if r.pc.ReadCount? {
      CountLearns(s, r);
    } else {
      ScanLearns(s, r);
    }
  }

  lemma ReplyLinearized(s: State, r: Reader)
    requires Current(s) && r.Reading? && ReaderOk(s.committed, r) && r.gen == s.gen
    ensures var n := ReaderNext(s, r); n.Replied? ==> Linearized(s.committed, n.req, n.start, n.end, n.reply)
  {
    var ops := s.committed;
    var ps := PairsAfter(ops);
    assert ops[..|ops|] == ops;
    match r.pc {
      case Scan(i, count) =>
        if i == count { AllSkipped(ops, r.req); }
      case Copy(i, count, len, got) =>
        if |got| == len {
          FoundMeans(ops, i);
          assert ps[i].keyauth[..len] == ps[i].keyauth;
        }
      case _ =>
    }
  }

  /** An attempt is lost only to a publication behind the generation it read. */
  lemma LostToPublication(s: State, r: Reader)
    requires Current(s) && r.Reading? && ReaderOk(s.committed, r) && !r.pc.Begin? && r.gen == s.gen
    ensures var n := ReaderNext(s, r);
      (n.Reading? ==> n.attempt == r.attempt && !n.pc.Begin?) && (n.Replied? ==> !n.reply.GaveUp?)
  {
    assert Published(s, r.gen).count == |PairsAfter(s.committed)| <= SLOT_MAX;
  }

  lemma ReaderKeeps(s: State, r: Reader)
    requires Inv(s) && r.Reading? && ReaderOk(s.committed, r)
    ensures ReaderOk(s.committed, ReaderNext(s, r))
  {
    if r.gen == s.gen && !r.pc.Begin? { FreshKeeps(s, r); } else { StaleKeeps(s, r); }
  }

  lemma FreshKeeps(s: State, r: Reader)
    requires Current(s) && r.Reading? && ReaderOk(s.committed, r) && r.gen == s.gen && !r.pc.Begin?
    ensures ReaderOk(s.committed, ReaderNext(s, r))
  {
    LostToPublication(s, r);
    ReplyLinearized(s, r);
    if r.pc.Match? { MatchLearns(s, r); }
    else if r.pc.List? { ListLearns(s, r); }
    else { LookupLearns(s, r); }
  }

  /** A reader that begins, or whose generation is over. */
  lemma StaleKeeps(s: State, r: Reader)
    requires Current(s) && r.Reading? && ReaderOk(s.committed, r) && (r.pc.Begin? || r.gen != s.gen)
    ensures ReaderOk(s.committed, ReaderNext(s, r))
  {
  }

  /** A publication leaves every reader's promise standing: what it learned is now void or already replied. */
  lemma ReaderSurvivesPublish(ops: seq<Op>, op: Op, r: Reader)
    requires History(ops) && History(ops + [op]) && ReaderOk(ops, r)
    ensures ReaderOk(ops + [op], r)
  {
    if r.Replied? && !r.reply.GaveUp? {
      assert (ops + [op])[..r.reply.gen] == ops[..r.reply.gen];
    }
  }

  // ---- writers keep it ----

  predicate Outside(x: Writer) { x.WIdle? || x.WDead? }

  /** While one writer is in its critical section, no other is. */
  lemma OthersOutside(s: State, w: nat, v: nat)
    requires Inv(s) && w < |s.writers| && v < |s.writers| && !Outside(s.writers[w])
    ensures v != w ==> Outside(s.writers[v])
    ensures s.lock == Some(w)
  {
    assert WriterOk(s, w) && WriterOk(s, v);
  }

  /** The writer that copies a cell. */
  lemma CopyOwn(s: State, w: nat, c: Cell)
    requires Current(s) && Enabled(s, WCopy(w, c)) && WriterOk(s, w)
    ensures var t := Perform(s, WCopy(w, c));
      Current(t) && t.lock == s.lock && |t.writers| == |s.writers| && WriterOk(t, w)
  {
    var t := Perform(s, WCopy(w, c));
    assert Published(t, t.gen) == Published(s, s.gen);
  }

  lemma CopyKeeps(s: State, w: nat, c: Cell)
    requires Inv(s) && Enabled(s, WCopy(w, c))
    ensures Inv(Perform(s, WCopy(w, c)))
  {
    var t := Perform(s, WCopy(w, c));
    CopyOwn(s, w, c);
    forall v | 0 <= v < |t.writers| && v != w ensures WriterOk(t, v) {
      OthersOutside(s, w, v);
    }
  }

  /** The writer that scans its finished copy. */
  lemma ScanOwn(s: State, w: nat)
    requires Current(s) && w < |s.writers| && s.writers[w].WCopying? && WriterEnabled(s, w) && WriterOk(s, w)
    ensures var t := WriterNext(s, w); Current(t) && t.lock == s.lock && |t.writers| == |s.writers| && WriterOk(t, w)
  {
    var op := s.writers[w].op;
    var ps := PairsAfter(s.committed);
    SameCells(Draft(s, s.gen), Published(s, s.gen));
    if !Refused(op, Enc(ps)) {
      NotRefusedFits(ps, op);
      ProgramEdits(ps, op);
    }
  }

  lemma ScanKeeps(s: State, w: nat)
    requires Inv(s) && w < |s.writers| && s.writers[w].WCopying? && WriterEnabled(s, w)
    ensures Inv(WriterNext(s, w))
  {
    var t := WriterNext(s, w);
    ScanOwn(s, w);
    forall v | 0 <= v < |t.writers| && v != w ensures WriterOk(t, v) {
      OthersOutside(s, w, v);
    }
  }

  lemma WriteHead(s: State, w: nat)
    requires Inv(s) && w < |s.writers| && s.writers[w].WEditing? && s.writers[w].todo != [] && WriterEnabled(s, w)
    ensures var t := WriterNext(s, w);
      && SlotsShaped(t) && Published(t, s.gen) == Published(s, s.gen)
      && Writable(t.writers[w].todo)
      && Written(Draft(t, s.gen), t.writers[w].todo) == Written(Draft(s, s.gen), s.writers[w].todo)
  {
    assert WriterOk(s, w);
    var todo := s.writers[w].todo;
    var d := Put(Draft(s, s.gen), todo[0].cell, todo[0].value);
    assert Draft(WriterNext(s, w), s.gen) == d;
  }

  lemma WriteKeeps(s: State, w: nat)
    requires Inv(s) && w < |s.writers| && s.writers[w].WEditing? && s.writers[w].todo != [] && WriterEnabled(s, w)
    ensures Inv(WriterNext(s, w))
  {
    var t := WriterNext(s, w);
    WriteHead(s, w);
    assert WriterOk(s, w);
    assert t.writers[w] == s.writers[w].(todo := s.writers[w].todo[1..]);
    assert WriterOk(t, w);
    forall v | 0 <= v < |t.writers| && v != w ensures WriterOk(t, v) {
      OthersOutside(s, w, v);
    }
  }

  /** The swap of the generation never fails: under the lock nobody else can have published. */
  lemma PublishKeeps(s: State, w: nat)
    requires Inv(s) && w < |s.writers| && s.writers[w].WEditing? && s.writers[w].todo == [] && WriterEnabled(s, w)
    ensures Inv(WriterNext(s, w))
    ensures WriterNext(s, w).gen == s.gen + 1
  {
    var t := WriterNext(s, w);
    var op := s.writers[w].op;
    assert WriterOk(s, w);
    assert t.committed[..|s.committed|] == s.committed;
    assert History(t.committed) && PairsAfter(t.committed) == Edited(PairsAfter(s.committed), op);
    assert Published(t, t.gen) == Draft(s, s.gen);
    forall v | 0 <= v < |t.writers| ensures WriterOk(t, v) {
      OthersOutside(s, w, v);
    }
    forall r | 0 <= r < |t.readers| ensures ReaderOk(t.committed, t.readers[r]) {
      ReaderSurvivesPublish(s.committed, op, s.readers[r]);
    }
  }

  lemma WriterKeeps(s: State, w: nat)
    requires Inv(s) && WriterEnabled(s, w)
    ensures Inv(WriterNext(s, w))
  {
    var x := s.writers[w];
    if x.WCopying? {
      ScanKeeps(s, w);
    } else if x.WEditing? {
      if x.todo == [] { PublishKeeps(s, w); } else { WriteKeeps(s, w); }
    } else {
      OtherWriterKeeps(s, w);
    }
  }

  lemma OtherWriterKeeps(s: State, w: nat)
    requires Inv(s) && WriterEnabled(s, w) && !s.writers[w].WCopying? && !s.writers[w].WEditing?
    ensures Inv(WriterNext(s, w))
  {
    var t := WriterNext(s, w);
    assert WriterOk(s, w);
    assert WriterOk(t, w);
    forall v | 0 <= v < |t.writers| && v != w ensures WriterOk(t, v) {
      OthersOutside(s, w, v);
    }
  }

  /** A reader's step touches nothing a writer's promise speaks of. */
  lemma ReadStepKeeps(s: State, r: nat)
    requires Inv(s) && Enabled(s, RStep(r))
    ensures Inv(Perform(s, RStep(r)))
  {
    var t := Perform(s, RStep(r));
    ReaderKeeps(s, s.readers[r]);
    forall v | 0 <= v < |t.writers| ensures WriterOk(t, v) { assert WriterOk(s, v); }
  }

  lemma StartKeeps(s: State, a: Action)
    requires Inv(s) && Enabled(s, a) && !a.WCopy? && !a.WStep? && !a.RStep?
    ensures Inv(Perform(s, a))
  {
    var t := Perform(s, a);
    forall v | 0 <= v < |t.writers| ensures WriterOk(t, v) { assert WriterOk(s, v); }
  }

  lemma StepKeeps(s: State, a: Action)
    requires Inv(s) && Enabled(s, a)
    ensures Inv(Perform(s, a))
  {
    match a {
      case WCopy(w, c) => CopyKeeps(s, w, c);
      case WStep(w) => WriterKeeps(s, w);
      case RStep(r) => ReadStepKeeps(s, r);
      case _ => StartKeeps(s, a);
    }
  }

  lemma {:induction false} RunKeeps(s: State, run: seq<Action>, t: State)
    requires Inv(s) && IsRun(s, run, t)
    ensures Inv(t)
    decreases |run|
  {
    if run != [] {
      StepKeeps(s, run[0]);
      RunKeeps(Perform(s, run[0]), run[1..], t);
    }
  }

  lemma ReachableInv(s: State)
    requires Reachable(s)
    ensures Inv(s)
  {
    var writers: nat, readers: nat, run: seq<Action> :| IsRun(Init(writers, readers), run, s);
    InitInv(writers, readers);
    RunKeeps(Init(writers, readers), run, s);
  }

  // ---- the promises ----

  /** Every reply, in every run, is what the committed set and clear operations up to one
      generation inside the call had produced. */
  lemma RepliesAreSnapshots(s: State, r: nat)
    requires Reachable(s) && r < |s.readers| && s.readers[r].Replied?
    ensures History(s.committed)
    ensures var x := s.readers[r]; Linearized(s.committed, x.req, x.start, x.end, x.reply)
  {
    ReachableInv(s);
    assert ReaderOk(s.committed, s.readers[r]);
  }

  /** A reader gives up only on an empty token, one that is no C string, or no room, and otherwise only when
      there was a publication for each of its attempts between the call and the return. */
  lemma GivesUpOnlyOvertaken(s: State, r: nat)
    requires Reachable(s) && r < |s.readers| && s.readers[r].Replied? && s.readers[r].reply.GaveUp?
    ensures var x := s.readers[r];
      || (x.req.Lookup? && (x.req.token == [] || 0 in x.req.token || x.req.room == 0))
      || (x.req.Tokens? && x.req.max == 0)
      || x.start + 4 <= x.end <= |s.committed|
  {
    RepliesAreSnapshots(s, r);
  }

  /** A lookup that no publication disturbs tells what the store holds: the key authorization when the token
      is there and its key fits, and that it is not otherwise. */
  lemma UndisturbedLookup(s: State, r: nat)
    requires Reachable(s) && r < |s.readers| && s.readers[r].Replied? && s.readers[r].req.Lookup?
    requires s.readers[r].start == s.readers[r].end && !Malformed(s.readers[r].req)
    ensures var x := s.readers[r];
      && x.start <= |s.committed| && History(s.committed)
      && var m := MapAfter(s.committed[..x.start]);
         x.reply == if x.req.token in m && |m[x.req.token]| < x.req.room then Hit(m[x.req.token], x.start)
                    else Miss(x.start)
  {
    RepliesAreSnapshots(s, r);
    ReachableInv(s);
    assert ReaderOk(s.committed, s.readers[r]);
  }

  /** And an undisturbed list is the current one, as far as there is room. */
  lemma UndisturbedTokens(s: State, r: nat)
    requires Reachable(s) && r < |s.readers| && s.readers[r].Replied? && s.readers[r].req.Tokens?
    requires s.readers[r].start == s.readers[r].end && s.readers[r].req.max > 0
    ensures var x := s.readers[r];
      && x.start <= |s.committed| && History(s.committed[..x.start])
      && var ps := PairsAfter(s.committed[..x.start]);
         x.reply == Listed(Buffers(ps[..Min(|ps|, x.req.max)]), x.start)
  {
    RepliesAreSnapshots(s, r);
    ReachableInv(s);
    assert ReaderOk(s.committed, s.readers[r]);
    HistoryPrefix(s.committed, s.readers[r].start);
  }

  // ---- readers come to an end ----

  function PcRank(pc: Pc): int {
    match pc
    case Begin => 9999
    case ReadCount => 9998
    case Scan(i, count) => (count - i) * 700 + 1
    case Match(i, count, len, k) => (count - i - 1) * 700 + 515 + TOKEN_MAX - k
    case Copy(i, count, len, got) => (count - i - 1) * 700 + 2 + len - |got|
    case List(count, done, got) => (count - |done|) * 200 + TOKEN_MAX - |got|
  }

  /** How many more steps a reader may take. */
  function Rank(r: Reader): nat
    requires InBounds(r)
  {
    if r.Reading? then (ATTEMPTS - r.attempt) * 10000 + PcRank(r.pc) else 0
  }

  /** Whatever it reads, a reader is nearer to its reply with every step. */
  lemma ReaderAdvances(s: State, r: Reader)
    requires SlotsShaped(s) && r.Reading? && InBounds(r)
    ensures Rank(ReaderNext(s, r)) < Rank(r)
  {
  }

  lemma ReadStep(s: State, r: nat) returns (u: State)
    requires Inv(s) && r < |s.readers| && s.readers[r].Reading?
    ensures StepsTo(s, RStep(r), u) && Inv(u) && |u.readers| == |s.readers|
    ensures u.gen == s.gen && u.committed == s.committed && !u.readers[r].RIdle?
    ensures var x, y := s.readers[r], u.readers[r];
      && InBounds(x) && InBounds(y) && Rank(y) < Rank(x) && y.req == x.req && y.start == x.start
      && (y.Replied? ==> y.end == s.gen)
  {
    assert ReaderOk(s.committed, s.readers[r]);
    u := Perform(s, RStep(r));
    ReaderAdvances(s, s.readers[r]);
    ReadStepKeeps(s, r);
  }

  /** Left alone, a reader inside a call replies. */
  lemma {:induction false} LeftAlone(s: State, r: nat) returns (run: seq<Action>, t: State)
    requires Inv(s) && r < |s.readers|
    ensures IsRun(s, run, t) && (forall i | 0 <= i < |run| :: run[i] == RStep(r)) && |t.readers| == |s.readers|
    ensures t.gen == s.gen && t.committed == s.committed && !t.readers[r].Reading?
    ensures s.readers[r].Reading? ==>
      && t.readers[r].Replied? && t.readers[r].req == s.readers[r].req
      && t.readers[r].start == s.readers[r].start && t.readers[r].end == s.gen
    ensures !s.readers[r].Reading? ==> t == s
    decreases var x := s.readers[r]; if x.Reading? && InBounds(x) then Rank(x) + 1 else 0
  {
    assert ReaderOk(s.committed, s.readers[r]);
    if s.readers[r].Reading? {
      var u := ReadStep(s, r);
      var rest;
      rest, t := LeftAlone(u, r);
      run := [RStep(r)] + rest;
      RunCons(s, RStep(r), u, rest, t);
    } else {
      run, t := [], s;
    }
  }

  /** A published challenge is served: from every reachable state, a lookup that is called and left alone
      answers with what the store holds. */
  lemma LookupServed(s: State, r: nat, token: Bytes, room: nat) returns (run: seq<Action>, t: State)
    requires Reachable(s) && r < |s.readers| && !s.readers[r].Reading?
    requires token != [] && CString(token) && room > 0
    ensures IsRun(s, run, t) && Reachable(t) && |t.readers| == |s.readers| && History(s.committed)
    ensures var m := MapAfter(s.committed);
      t.readers[r].Replied? && t.readers[r].reply ==
        if token in m && |m[token]| < room then Hit(m[token], s.gen) else Miss(s.gen)
  {
    run, t := CallAlone(s, r, Lookup(token, room));
    UndisturbedLookup(t, r);
    assert s.committed[..s.gen] == s.committed;
  }

  /** And so are the tokens. */
  lemma TokensServed(s: State, r: nat, max: nat) returns (run: seq<Action>, t: State)
    requires Reachable(s) && r < |s.readers| && !s.readers[r].Reading? && max > 0
    ensures IsRun(s, run, t) && Reachable(t) && |t.readers| == |s.readers| && History(s.committed)
    ensures var ps := PairsAfter(s.committed);
      t.readers[r].Replied? && t.readers[r].reply == Listed(Buffers(ps[..Min(|ps|, max)]), s.gen)
  {
    run, t := CallAlone(s, r, Tokens(max));
    UndisturbedTokens(t, r);
    assert s.committed[..s.gen] == s.committed;
  }

  lemma CallAlone(s: State, r: nat, req: Request) returns (run: seq<Action>, t: State)
    requires Reachable(s) && r < |s.readers| && !s.readers[r].Reading? && !Malformed(req)
    ensures IsRun(s, run, t) && Reachable(t) && |t.readers| == |s.readers|
    ensures t.gen == s.gen == |s.committed| && t.committed == s.committed && History(s.committed)
    ensures t.readers[r].Replied? && t.readers[r].req == req && t.readers[r].start == t.readers[r].end == s.gen
  {
    ReachableInv(s);
    var a := RCall(r, req);
    var u := Perform(s, a);
    StepKeeps(s, a);
    var rest;
    rest, t := LeftAlone(u, r);
    run := [a] + rest;
    assert run[1..] == rest;
    ReachableOn(s, run, t);
  }

  lemma ReachableOn(s: State, run: seq<Action>, t: State)
    requires Reachable(s) && IsRun(s, run, t)
    ensures Reachable(t)
  {
    var writers: nat, readers: nat, first: seq<Action> :| IsRun(Init(writers, readers), first, s);
    RunOn(Init(writers, readers), first, s, run, t);
  }

  /** One run behind another. */
  lemma RunOn(s: State, first: seq<Action>, t: State, second: seq<Action>, u: State)
    requires IsRun(s, first, t) && IsRun(t, second, u)
    ensures IsRun(s, first + second, u)
  {
    GoesOn(s, first, t, second, u);
    assert Look(0);
  }

  ghost predicate Goes(s: State, run: seq<Action>, t: State) {
    forall n: nat {:trigger Look(n)} :: Look(n) ==> IsRun(s, run, t)
  }

  ghost predicate StepsTo(s: State, a: Action, t: State) {
    forall n: nat {:trigger Look(n)} :: Look(n) ==> Enabled(s, a) && t == Perform(s, a)
  }

  lemma {:induction false} GoesOn(s: State, first: seq<Action>, t: State, second: seq<Action>, u: State)
    requires Goes(s, first, t) && Goes(t, second, u)
    ensures Goes(s, first + second, u)
    decreases |first|
  {
    if first == [] {
      GoesNowhere(s, t);
      assert first + second == second;
    } else {
      var v := GoesFirst(s, first, t);
      GoesOn(v, first[1..], t, second, u);
      StepThenGoes(s, first[0], v, first[1..] + second, u);
      assert first + second == [first[0]] + (first[1..] + second);
    }
  }

  lemma GoesNowhere(s: State, t: State)
    requires Goes(s, [], t)
    ensures s == t
  {
    assert Look(0);
  }

  lemma GoesFirst(s: State, run: seq<Action>, t: State) returns (u: State)
    requires Goes(s, run, t) && run != []
    ensures StepsTo(s, run[0], u) && Goes(u, run[1..], t)
  {
    assert Look(0);
    u := Perform(s, run[0]);
  }

  lemma StepThenGoes(s: State, a: Action, u: State, rest: seq<Action>, t: State)
    requires StepsTo(s, a, u) && Goes(u, rest, t)
    ensures Goes(s, [a] + rest, t)
  {
    assert Look(0);
    assert ([a] + rest)[1..] == rest;
  }

  lemma RunCons(s: State, a: Action, u: State, rest: seq<Action>, t: State)
    requires StepsTo(s, a, u) && IsRun(u, rest, t)
    ensures IsRun(s, [a] + rest, t)
  {
    StepThenGoes(s, a, u, rest, t);
    assert Look(0);
  }

  // ---- a writer that is left alone ----

  /** Nothing but the writer, the draft and, by a publication, the history differs. */
  predicate OnlyWriter(s: State, t: State, w: nat) {
    && |t.writers| == |s.writers| && t.readers == s.readers
    && forall v | 0 <= v < |s.writers| && v != w :: t.writers[v] == s.writers[v]
  }

  lemma {:induction false} CopyAlone(s: State, w: nat) returns (run: seq<Action>, t: State)
    requires Inv(s) && w < |s.writers| && s.writers[w].WCopying? && s.writers[w].left <= AllCells()
    ensures IsRun(s, run, t) && Inv(t) && OnlyWriter(s, t, w)
    ensures t.committed == s.committed && t.writers[w] == s.writers[w].(left := {})
    decreases |s.writers[w].left|
  {
    if s.writers[w].left == {} {
      run, t := [], s;
    } else {
      var c :| c in s.writers[w].left;
      var a := WCopy(w, c);
      CopyKeeps(s, w, c);
      var u, rest := Perform(s, a), [];
      assert u.writers[w].left < s.writers[w].left;
      FewerCells(u.writers[w].left, s.writers[w].left);
      rest, t := CopyAlone(u, w);
      run := [a] + rest;
      assert run[1..] == rest;
    }
  }

  lemma FewerCells(a: set<Cell>, b: set<Cell>)
    requires a < b
    ensures |a| < |b|
  {
    assert b == a + (b - a) && |b - a| > 0;
  }

  /** The edits of a draft end in its publication. */
  lemma {:induction false} EditAlone(s: State, w: nat) returns (run: seq<Action>, t: State)
    requires Inv(s) && w < |s.writers| && s.writers[w].WEditing?
    ensures IsRun(s, run, t) && Inv(t) && OnlyWriter(s, t, w)
    ensures t.committed == s.committed + [s.writers[w].op] && t.writers[w].WDone?
    decreases |s.writers[w].todo|
  {
    assert WriterOk(s, w);
    var a := WStep(w);
    var u := Perform(s, a);
    WriterKeeps(s, w);
    if s.writers[w].todo == [] {
      run, t := [a], u;
      assert run[1..] == [];
    } else {
      var rest;
      rest, t := EditAlone(u, w);
      run := [a] + rest;
      assert run[1..] == rest;
    }
  }

  /** A complete copy is edited and published when the operation fits, and left when it does not. */
  lemma DecideAlone(s: State, w: nat) returns (run: seq<Action>, t: State)
    requires Inv(s) && w < |s.writers| && s.writers[w].WCopying? && s.writers[w].left == {}
    ensures IsRun(s, run, t) && Inv(t) && OnlyWriter(s, t, w) && t.writers[w].WDone?
    ensures var op := s.writers[w].op;
      t.committed == if Fits(PairsAfter(s.committed), op) then s.committed + [op] else s.committed
  {
    assert WriterOk(s, w);
    SameCells(Draft(s, s.gen), Published(s, s.gen));
    var ps, op := PairsAfter(s.committed), s.writers[w].op;
    var a := WStep(w);
    var u := Perform(s, a);
    WriterKeeps(s, w);
    if Fits(ps, op) {
      ProgramEdits(ps, op);
      var rest;
      rest, t := EditAlone(u, w);
      run := [a] + rest;
      assert run[1..] == rest;
    } else {
      if !Refused(op, Enc(ps)) { NotRefusedFits(ps, op); }
      run, t := [a], u;
      assert run[1..] == [];
    }
  }

  /** A set or clear that is called while nobody holds the lock, and left alone: it is published exactly when
      it is acceptable and, for a new token, there is room; and the lock is free again. */
  lemma WriteServed(s: State, w: nat, op: Op) returns (run: seq<Action>, t: State)
    requires Reachable(s) && w < |s.writers| && s.writers[w].WIdle? && s.lock == None
    ensures IsRun(s, run, t) && Reachable(t) && OnlyWriter(s, t, w) && t.lock == None && t.writers[w].WIdle?
    ensures var m := MapAfter(s.committed);
      t.committed ==
        s.committed + if Acceptable(op) && (op.Clear? || op.token in m || |m| < 8) then [op] else []
  {
    ReachableInv(s);
    FitsIff(s, op);
    var a := WStart(w, op);
    if !Acceptable(op) {
      run, t := [a], s;
      assert run[1..] == [];
    } else {
      var u, rest := Perform(s, a), [];
      StepKeeps(s, a);
      rest, t := LockedAlone(u, w);
      run := [a] + rest;
      assert run[1..] == rest;
    }
    ReachableOn(s, run, t);
  }

  lemma FitsIff(s: State, op: Op)
    requires Inv(s)
    ensures var m := MapAfter(s.committed);
      Fits(PairsAfter(s.committed), op) <==> Acceptable(op) && (op.Clear? || op.token in m || |m| < 8)
  {
    var ps := PairsAfter(s.committed);
    HistoryMeans(s.committed);
    MeansSize(ps, MapAfter(s.committed));
    if op.token in MapAfter(s.committed) {
      var i :| 0 <= i < |ps| && ps[i].token == op.token;
    }
  }

  lemma LockedAlone(s: State, w: nat) returns (run: seq<Action>, t: State)
    requires Inv(s) && w < |s.writers| && s.writers[w].WLocked?
    ensures IsRun(s, run, t) && OnlyWriter(s, t, w) && t.lock == None && t.writers[w].WIdle?
    ensures var op := s.writers[w].op;
      t.committed == if Fits(PairsAfter(s.committed), op) then s.committed + [op] else s.committed
  {
    var a := WStep(w);
    var u := Perform(s, a);
    WriterKeeps(s, w);
    var copying, v := CopyAlone(u, w);
    var deciding, x := DecideAlone(v, w);
    RunOn(u, copying, v, deciding, x);
    t := Perform(x, a);
    RunOn(u, copying + deciding, x, [a], t);
    run := [a] + (copying + deciding + [a]);
    assert run[1..] == copying + deciding + [a];
    assert [a][1..] == [];
  }

  lemma NowHolds(before: seq<Op>, after: seq<Op>, op: Op)
    requires after == before + [op] && op.Set?
    ensures MapAfter(after) == MapAfter(before)[op.token := op.keyauth]
  {
    assert after[..|before|] == before;
  }

  lemma CommittedIsGen(s: State)
    requires Reachable(s)
    ensures s.gen == |s.committed|
  {
    ReachableInv(s);
  }

  lemma WellFormedSet(op: Op)
    requires op.Set? && 0 !in op.token && 1 <= |op.token| <= 127 && 0 !in op.keyauth && 1 <= |op.keyauth| <= 511
    requires forall c | c in ['/', '%', '?', '#'] :: c as nat !in op.token
    ensures Acceptable(op) && CString(op.token)
  {
    var cs := ['/', '%', '?', '#'];
    assert cs[0] in cs && cs[1] in cs && cs[2] in cs && cs[3] in cs;
  }

  /** A challenge that was set is served: set, then looked up, each left alone. */
  lemma SetIsServed(s: State, w: nat, r: nat, op: Op, room: nat) returns (run: seq<Action>, t: State)
    requires Reachable(s) && w < |s.writers| && s.writers[w].WIdle? && s.lock == None
    requires r < |s.readers| && !s.readers[r].Reading?
    requires op.Set? && 0 !in op.token && 1 <= |op.token| <= 127 && 0 !in op.keyauth && 1 <= |op.keyauth| <= 511
    requires forall c | c in ['/', '%', '?', '#'] :: c as nat !in op.token
    requires op.token in MapAfter(s.committed) || |MapAfter(s.committed)| < 8
    requires |op.keyauth| < room
    ensures IsRun(s, run, t) && r < |t.readers| && t.readers[r].Replied?
    ensures t.readers[r].reply == Hit(op.keyauth, |s.committed| + 1)
  {
    WellFormedSet(op);
    var setting, u := WriteServed(s, w, op);
    NowHolds(s.committed, u.committed, op);
    CommittedIsGen(u);
    var asking;
    asking, t := LookupServed(u, r, op.token, room);
    RunOn(s, setting, u, asking, t);
    run := setting + asking;
  }

  /** The published slot always is the map of the committed operations, with at most eight distinct tokens. */
  lemma PublishedIsMap(s: State)
    requires Reachable(s)
    ensures SlotsShaped(s) && History(s.committed) && s.gen == |s.committed|
    ensures Published(s, s.gen) == Enc(PairsAfter(s.committed))
    ensures Means(PairsAfter(s.committed), MapAfter(s.committed))
    ensures |MapAfter(s.committed)| == Published(s, s.gen).count <= SLOT_MAX
  {
    ReachableInv(s);
    HistoryMeans(s.committed);
    MeansSize(PairsAfter(s.committed), MapAfter(s.committed));
  }

  lemma {:induction false} MeansSize(ps: seq<Pair>, m: map<Bytes, Bytes>)
    requires Means(ps, m) && forall i, j | 0 <= i < j < |ps| :: ps[i].token != ps[j].token
    ensures |m| == |ps|
    decreases |ps|
  {
    if ps == [] {
      assert forall t :: t !in m;
      assert m.Keys == {};
    } else {
      var n := |ps| - 1;
      var m' := m - {ps[n].token};
      assert m'.Keys == m.Keys - {ps[n].token};
      forall t | t in m' ensures exists i | 0 <= i < |ps[..n]| :: ps[..n][i].token == t {
        var i :| 0 <= i < |ps| && ps[i].token == t;
        assert ps[..n][i].token == t;
      }
      MeansSize(ps[..n], m');
      assert |m.Keys| == |m'.Keys| + 1;
    }
  }

  /** A reader inside its call never leaves its buffers, however the slot is torn under it. */
  lemma ReadersStayInBounds(s: State, r: nat)
    requires Reachable(s) && r < |s.readers|
    ensures InBounds(s.readers[r])
  {
    ReachableInv(s);
    assert ReaderOk(s.committed, s.readers[r]);
  }

  /** A draft that is complete under the lock is always published: its swap finds the generation it read. */
  lemma PublishSucceeds(s: State, w: nat)
    requires Reachable(s) && w < |s.writers| && s.writers[w].WEditing? && s.writers[w].todo == []
    ensures Enabled(s, WStep(w))
    ensures Perform(s, WStep(w)).committed == s.committed + [s.writers[w].op]
    ensures Perform(s, WStep(w)).gen == s.gen + 1
  {
    ReachableInv(s);
    assert WriterOk(s, w);
    PublishKeeps(s, w);
  }

  /** The guards of the model hide no behaviour: in every run a reader inside a call, and a writer
      inside its critical section, can take its next step. */
  lemma StepsAlwaysPossible(s: State)
    requires Reachable(s)
    ensures forall r | 0 <= r < |s.readers| && s.readers[r].Reading? :: Enabled(s, RStep(r))
    ensures forall w | 0 <= w < |s.writers| && !Outside(s.writers[w]) ::
      || Enabled(s, WStep(w))
      || (s.writers[w].WCopying? && forall c | c in s.writers[w].left && InSlot(c) :: Enabled(s, WCopy(w, c)))
    ensures forall w | 0 <= w < |s.writers| && s.writers[w].WCopying? && s.writers[w].left == {} :: Enabled(s, WStep(w))
  {
    ReachableInv(s);
    forall r | 0 <= r < |s.readers| && s.readers[r].Reading? ensures Enabled(s, RStep(r)) {
      assert ReaderOk(s.committed, s.readers[r]);
    }
    forall w | 0 <= w < |s.writers| && s.writers[w].WCopying? && s.writers[w].left == {} ensures Enabled(s, WStep(w)) {
      assert WriterOk(s, w);
      SameCells(Draft(s, s.gen), Published(s, s.gen));
    }
    forall w | 0 <= w < |s.writers| && !Outside(s.writers[w]) && !s.writers[w].WCopying? ensures Enabled(s, WStep(w)) {
      assert WriterOk(s, w);
    }
  }
}
