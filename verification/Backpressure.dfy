/**
 Flow control from a slow client back to the upstream: the responses of one gateway process, the read
 event and the deadline of the upstream behind each, and the gauge of paused responses.

 A target's output is collected until its header block ends; only then the reply starts.  A target that
 never ends it has what was collected sent as body, once it is more than MAX_CGI_HEADERS.
 */
module Backpressure {
  import opened Shared

  const READ_MAX := 16384
  const MAX_CGI_HEADERS := 65536
  const BAD_GATEWAY_LEN := 12     // the body of a 502 the gateway makes itself

  type Id = nat
  type Bytes = seq<char>

  /** A response under way: the client's unwritten output, how much of it is body, whether the client
      connection has its node, the header bytes collected so far, whether the reply was started, whether
      the rest of it is discarded or a body piece was lost, and the state of its upstream. */
  datatype Response = Response(out: nat, body: nat, tracked: bool, headers: Bytes, sent: bool, discard: bool,
                               lost: bool, paused: bool, readEvent: bool, deadline: bool)

  /** Bytes of the target: the data, the size of the head if the reply starts with it and whether that head
      is refused, the framing the client's connection adds, and whether memory is had for a piece. */
  datatype Piece = Piece(data: Bytes, head: nat, refused: bool, framing: nat, memory: bool)

  function Total(ps: seq<Piece>): nat { if ps == [] then 0 else |ps[0].data| + Total(ps[1..]) }

  function PausedIds(rs: map<Id, Response>): set<Id> { set id | id in rs && rs[id].paused }

  function One(b: bool): nat { if b then 1 else 0 }

  /** Replacing a response changes the number of paused ones by its own flag. */
  lemma PausedCount(rs: map<Id, Response>, id: Id, r: Response)
    requires id in rs
    ensures |PausedIds(rs[id := r])| == |PausedIds(rs)| - One(rs[id].paused) + One(r.paused)
  {
    var a, b := PausedIds(rs), PausedIds(rs[id := r]);
    assert id in a <==> rs[id].paused;
    assert b == if r.paused then a + {id} else a - {id};
  }

  lemma PausedMore(rs: map<Id, Response>, id: Id, r: Response)
    requires id !in rs && !r.paused
    ensures PausedIds(rs[id := r]) == PausedIds(rs)
  {
  }

  lemma PausedLess(rs: map<Id, Response>, id: Id)
    requires id in rs
    ensures |PausedIds(rs - {id})| == |PausedIds(rs)| - One(rs[id].paused)
  {
    assert id in PausedIds(rs) <==> rs[id].paused;
    assert PausedIds(rs - {id}) == PausedIds(rs) - {id};
  }

  // ---- the end of a header block ----

  /** A blank line starts at i; the number is where the body starts. */
  function BlankAt(h: Bytes, i: nat): Option<nat> {
    if i + 1 < |h| && h[i] == '\n' && h[i + 1] == '\n' then Some(i + 2)
    else if i + 3 < |h| && h[i] == '\r' && h[i + 1] == '\n' && h[i + 2] == '\r' && h[i + 3] == '\n' then Some(i + 4)
    else None
  }

  /** Where the body starts behind the first blank line at or behind i. */
  function BodyFrom(h: Bytes, i: nat): (off: Option<nat>)
    ensures off.Some? ==> off.value <= |h|
    decreases |h| - i
  {
    if i >= |h| then None else if BlankAt(h, i).Some? then BlankAt(h, i) else BodyFrom(h, i + 1)
  }

  lemma {:induction false} NoBlankAt(h: Bytes, i: nat, j: nat)
    requires BodyFrom(h, i).None? && i <= j
    ensures BlankAt(h, j).None?
    decreases j - i
  {
    if i < j && i < |h| { NoBlankAt(h, i + 1, j); }
  }

  lemma {:induction false} FoundAt(h: Bytes, i: nat) returns (j: nat)
    requires BodyFrom(h, i).Some?
    ensures i <= j && BlankAt(h, j) == BodyFrom(h, i)
    decreases |h| - i
  {
    if BlankAt(h, i).Some? { j := i; } else { j := FoundAt(h, i + 1); }
  }

  /** New bytes end a header block only beyond the old ones, three bytes before them at the earliest. */
  lemma BlankIsNew(seen: Bytes, data: Bytes, i: nat)
    requires BodyFrom(seen, 0).None? && BlankAt(seen + data, i).Some?
    ensures BlankAt(seen + data, i).value > |seen| && i + 3 >= |seen|
  {
    NoBlankAt(seen, 0, i);
  }

  /** The scan may resume there. */
  lemma ResumedScan(seen: Bytes, data: Bytes)
    requires BodyFrom(seen, 0).None?
    ensures var from := if |seen| > 3 then |seen| - 3 else 0;
      BodyFrom(seen + data, from) == BodyFrom(seen + data, 0)
    ensures BodyFrom(seen + data, 0).Some? ==> |seen| < BodyFrom(seen + data, 0).value
  {
    var h, from := seen + data, if |seen| > 3 then |seen| - 3 else 0;
    forall i: nat | i < from ensures BlankAt(h, i).None? {
      if BlankAt(h, i).Some? { BlankIsNew(seen, data, i); }
    }
    ScanSkips(h, 0, from);
    if BodyFrom(h, 0).Some? {
      var j := FoundAt(h, 0);
      BlankIsNew(seen, data, j);
    }
  }

  /** Nothing starts before `end`: the scan may begin there. */
  lemma {:induction false} ScanSkips(h: Bytes, i: nat, end: nat)
    requires i <= end && forall k: nat | i <= k < end :: BlankAt(h, k).None?
    ensures BodyFrom(h, i) == BodyFrom(h, end)
    decreases end - i
  {
    if i < end { ScanSkips(h, i + 1, end); }
  }

  // ---- one response ----

  /** A response after n bytes of body: the piece that takes the output over the limit pauses the upstream. */
  function Chunked(r: Response, n: nat, p: Piece, limit: nat): Response {
    if r.lost then r
    else if !p.memory then r.(lost := true)
    else
      var q := r.(out := r.out + n + p.framing, body := r.body + n);
      if q.tracked && limit > 0 && !q.paused && q.out > limit then
        q.(paused := true, readEvent := false, deadline := false)
      else q
  }

  /** The reply starts: the head goes out, and what was collected behind `off` as body.  A refused head is
      answered with a 502, and the rest of the reply is discarded. */
  function Started(r: Response, h: Bytes, off: nat, p: Piece, limit: nat): Response
    requires off <= |h|
  {
    var q := r.(out := r.out + p.head, headers := [], sent := true);
    if p.refused && off > 0 then
      var n := if p.memory then BAD_GATEWAY_LEN else 0;
      q.(out := q.out + n, body := q.body + n, discard := true)
    else if off < |h| then Chunked(q, |h| - off, p, limit)
    else q
  }

  /** Output of the target. */
  function Put(r: Response, p: Piece, limit: nat): Response {
    if r.discard then r
    else if r.sent then Chunked(r, |p.data|, p, limit)
    else
      var h := r.headers + p.data;
      var off := BodyFrom(h, 0);
      if off.Some? then Started(r, h, off.value, p, limit)
      else if |h| > MAX_CGI_HEADERS then Started(r, h, 0, p, limit)
      else r.(headers := h)
  }

  function PutAll(r: Response, ps: seq<Piece>, limit: nat): Response
    decreases |ps|
  {
    if ps == [] then r else PutAll(Put(r, ps[0], limit), ps[1..], limit)
  }

  /** The upstream is read again. */
  function Resumed(r: Response, timeout: bool): Response {
    if r.paused then r.(paused := false, readEvent := true, deadline := timeout) else r
  }

  /** A response after its client took n bytes: only an empty output ends the pause. */
  function Drained(r: Response, n: nat, body: nat, timeout: bool): Response
    requires n <= r.out
  {
    var q := r.(out := r.out - n, body := body);
    if q.out == 0 && q.tracked then Resumed(q, timeout) else q
  }

  /** A paused upstream is not read and not timed, and its client still has output to take; what is collected
      holds no blank line; while the upstream is read, the body is within the limit. */
  predicate Steady(r: Response, limit: nat, timeout: bool) {
    && r.body <= r.out
    && (r.paused ==> !r.readEvent && !r.deadline && r.tracked && limit > 0 && r.out > 0)
    && (!r.paused ==> r.readEvent && (r.deadline <==> timeout))
    && (!r.sent ==> r.body == 0 && !r.paused && !r.discard)
    && (!r.sent ==> |r.headers| <= MAX_CGI_HEADERS && BodyFrom(r.headers, 0).None?)
    && (r.discard ==> r.body <= BAD_GATEWAY_LEN)
    && (limit > 0 && r.tracked && !r.paused && !r.discard ==> r.body <= limit)
  }

  function Most(limit: nat): nat { (if limit > MAX_CGI_HEADERS then limit else MAX_CGI_HEADERS) + READ_MAX }

  predicate Fine(r: Response, limit: nat, timeout: bool) {
    Steady(r, limit, timeout) && (limit > 0 && r.tracked ==> r.body <= Most(limit))
  }

  /** What a response holds back or has not written yet. */
  function Held(r: Response): nat { if r.sent then r.body else |r.headers| }

  lemma ChunkedSteady(r: Response, n: nat, p: Piece, limit: nat, timeout: bool)
    requires Steady(r, limit, timeout) && r.sent && !r.discard
    ensures var q := Chunked(r, n, p, limit);
      Steady(q, limit, timeout) && q.tracked == r.tracked && q.sent && q.body <= r.body + n
  {
  }

  lemma StartedSteady(r: Response, h: Bytes, off: nat, p: Piece, limit: nat, timeout: bool)
    requires Steady(r, limit, timeout) && !r.sent && off <= |h|
    ensures var q := Started(r, h, off, p, limit);
      Steady(q, limit, timeout) && q.tracked == r.tracked && q.sent && (!q.discard ==> q.body <= |h| - off)
  {
    var q := r.(out := r.out + p.head, headers := [], sent := true);
    if !(p.refused && off > 0) { ChunkedSteady(q, |h| - off, p, limit, timeout); }
  }

  lemma PutSteady(r: Response, p: Piece, limit: nat, timeout: bool)
    requires Steady(r, limit, timeout)
    ensures Steady(Put(r, p, limit), limit, timeout) && Put(r, p, limit).tracked == r.tracked
    ensures !Put(r, p, limit).discard ==> Held(Put(r, p, limit)) <= Held(r) + |p.data|
    ensures r.discard ==> Put(r, p, limit).discard
  {
    if r.sent {
      if !r.discard { ChunkedSteady(r, |p.data|, p, limit, timeout); }
    } else {
      ResumedScan(r.headers, p.data);
      var h := r.headers + p.data;
      var off := BodyFrom(h, 0);
      StartedSteady(r, h, if off.Some? then off.value else 0, p, limit, timeout);
    }
  }

  /** The pieces of one read, whatever their number: what is held grows by at most the read. */
  lemma {:induction false} PutAllSteady(r: Response, ps: seq<Piece>, limit: nat, timeout: bool)
    requires Steady(r, limit, timeout)
    ensures var q := PutAll(r, ps, limit);
      Steady(q, limit, timeout) && q.tracked == r.tracked && (!q.discard ==> Held(q) <= Held(r) + Total(ps))
    decreases |ps|
  {
    if ps != [] {
      PutSteady(r, ps[0], limit, timeout);
      PutAllSteady(Put(r, ps[0], limit), ps[1..], limit, timeout);
      if Put(r, ps[0], limit).discard { DiscardStays(Put(r, ps[0], limit), ps[1..], limit); }
    }
  }

  lemma {:induction false} DiscardStays(r: Response, ps: seq<Piece>, limit: nat)
    requires r.discard
    ensures PutAll(r, ps, limit) == r
    decreases |ps|
  {
    if ps != [] { DiscardStays(r, ps[1..], limit); }
  }

  /** A read of an upstream that is not paused. */
  lemma ReadFine(r: Response, ps: seq<Piece>, limit: nat, timeout: bool)
    requires Fine(r, limit, timeout) && r.readEvent && Total(ps) <= READ_MAX
    ensures Fine(PutAll(r, ps, limit), limit, timeout)
  {
    PutAllSteady(r, ps, limit, timeout);
    if r.discard { DiscardStays(r, ps, limit); }
  }

  // ---- all responses of the process ----

  datatype Event =
    | Starts(id: Id, tracked: bool)
    | Heads(id: Id, p: Piece)                    // a complete head from an HTTP target
    | Reads(id: Id, ps: seq<Piece>)
    | Drains(id: Id, n: nat, body: nat)
    | Ends(id: Id, alive: bool)                  // is the upstream still there?
    | Cuts(id: Id)

  predicate Possible(rs: map<Id, Response>, e: Event) {
    match e
    case Starts(id, _) => id !in rs
    case Heads(id, _) => id in rs && !rs[id].sent && rs[id].headers == []
    case Reads(id, ps) => id in rs && rs[id].readEvent && Total(ps) <= READ_MAX
    case Drains(id, n, body) => id in rs && n <= rs[id].out && body <= rs[id].body && body <= rs[id].out - n
    case Ends(id, _) => id in rs
    case Cuts(id) => id in rs
  }

  const NEW := Response(0, 0, false, [], false, false, false, false, true, false)

  /** The responses behind one event. */
  function After(rs: map<Id, Response>, e: Event, limit: nat, timeout: bool): map<Id, Response> {
    if !Possible(rs, e) then rs
    else
      match e
      case Starts(id, tracked) => rs[id := NEW.(tracked := tracked, deadline := timeout)]
      case Heads(id, p) => rs[id := Started(rs[id], p.data, |p.data|, p, limit)]
      case Reads(id, ps) => rs[id := PutAll(rs[id], ps, limit)]
      case Drains(id, n, body) => rs[id := Drained(rs[id], n, body, timeout)]
      case Ends(id, _) => rs - {id}
      case Cuts(id) => rs - {id}
  }

  function AfterAll(rs: map<Id, Response>, es: seq<Event>, limit: nat, timeout: bool): map<Id, Response>
    decreases |es|
  {
    if es == [] then rs else AfterAll(After(rs, es[0], limit, timeout), es[1..], limit, timeout)
  }

  predicate AllFine(rs: map<Id, Response>, limit: nat, timeout: bool) {
    forall id: Id | id in rs :: Fine(rs[id], limit, timeout)
  }

  lemma DrainedFine(r: Response, n: nat, body: nat, limit: nat, timeout: bool)
    requires Fine(r, limit, timeout) && n <= r.out && body <= r.body && body <= r.out - n
    ensures Fine(Drained(r, n, body, timeout), limit, timeout)
  {
  }

  lemma UpdatedTwice(rs: map<Id, Response>, id: Id, a: Response, b: Response)
    ensures rs[id := a][id := b] == rs[id := b]
  {
  }

  lemma FineUpdate(rs: map<Id, Response>, id: Id, r: Response, limit: nat, timeout: bool)
    requires AllFine(rs, limit, timeout) && Fine(r, limit, timeout)
    ensures AllFine(rs[id := r], limit, timeout)
  {
  }

  lemma AfterFine(rs: map<Id, Response>, e: Event, limit: nat, timeout: bool)
    requires AllFine(rs, limit, timeout)
    ensures AllFine(After(rs, e, limit, timeout), limit, timeout)
  {
    if Possible(rs, e) && e.Reads? { ReadFine(rs[e.id], e.ps, limit, timeout); }
  }

  lemma {:induction false} RunFine(rs: map<Id, Response>, es: seq<Event>, limit: nat, timeout: bool)
    requires AllFine(rs, limit, timeout)
    ensures AllFine(AfterAll(rs, es, limit, timeout), limit, timeout)
    decreases |es|
  {
    if es != [] {
      AfterFine(rs, es[0], limit, timeout);
      RunFine(After(rs, es[0], limit, timeout), es[1..], limit, timeout);
    }
  }

  // ---- when a pause begins, and when it ends ----

  /** In every run: a response with nothing left to write is not paused, and its upstream is read. */
  lemma EmptyIsRead(es: seq<Event>, limit: nat, timeout: bool, id: Id)
    ensures var rs := AfterAll(map[], es, limit, timeout);
      id in rs ==>
        && (rs[id].out == 0 ==> !rs[id].paused && rs[id].readEvent)
        && (rs[id].paused ==> rs[id].out > 0 && rs[id].tracked && limit > 0)
        && (rs[id].readEvent <==> !rs[id].paused) && (rs[id].deadline <==> !rs[id].paused && timeout)
  {
    RunFine(map[], es, limit, timeout);
  }

  /** A pause begins with a read that takes the output of a tracked client over the limit. */
  lemma PauseBegins(rs: map<Id, Response>, e: Event, limit: nat, timeout: bool, id: Id)
    requires var after := After(rs, e, limit, timeout);
      id in rs && id in after && !rs[id].paused && after[id].paused
    ensures e.Reads? && e.id == id && rs[id].tracked && 0 < limit < After(rs, e, limit, timeout)[id].out
  {
    if e.Reads? && e.id == id { OverWhenPaused(rs[id], e.ps, limit); }
  }

  /** Output grows; a pause goes on, or begins over the limit. */
  predicate Grows(r: Response, q: Response, limit: nat) {
    && q.out >= r.out && q.tracked == r.tracked && (r.paused ==> q.paused)
    && (!r.paused && q.paused ==> r.tracked && 0 < limit < q.out)
  }

  lemma ChunkedGrows(r: Response, n: nat, p: Piece, limit: nat)
    ensures Grows(r, Chunked(r, n, p, limit), limit)
  {
  }

  lemma StartedGrows(r: Response, h: Bytes, off: nat, p: Piece, limit: nat)
    requires off <= |h|
    ensures Grows(r, Started(r, h, off, p, limit), limit)
  {
    ChunkedGrows(r.(out := r.out + p.head, headers := [], sent := true), |h| - off, p, limit);
  }

  lemma PutGrows(r: Response, p: Piece, limit: nat)
    ensures Grows(r, Put(r, p, limit), limit)
  {
    if r.sent {
      ChunkedGrows(r, |p.data|, p, limit);
    } else {
      var h := r.headers + p.data;
      StartedGrows(r, h, if BodyFrom(h, 0).Some? then BodyFrom(h, 0).value else 0, p, limit);
    }
  }

  lemma {:induction false} OverWhenPaused(r: Response, ps: seq<Piece>, limit: nat)
    ensures Grows(r, PutAll(r, ps, limit), limit)
    decreases |ps|
  {
    if ps != [] {
      PutGrows(r, ps[0], limit);
      OverWhenPaused(Put(r, ps[0], limit), ps[1..], limit);
    }
  }

  /** The pause of a response that goes on ends if and only if its client takes all that is left. */
  lemma PauseEndsIff(rs: map<Id, Response>, e: Event, limit: nat, timeout: bool, id: Id)
    requires AllFine(rs, limit, timeout) && id in rs && rs[id].paused && id in After(rs, e, limit, timeout)
    ensures !After(rs, e, limit, timeout)[id].paused <==>
      Possible(rs, e) && e.Drains? && e.id == id && e.n == rs[id].out
  {
    assert Fine(rs[id], limit, timeout);
    if e.Reads? && e.id == id { OverWhenPaused(rs[id], e.ps, limit); }
  }

  // ---- no byte is lost ----

  /** A first blank line stays the first one, whatever follows. */
  lemma FirstBlankStays(h: Bytes, x: Bytes)
    requires BodyFrom(h, 0).Some?
    ensures BodyFrom(h + x, 0) == BodyFrom(h, 0)
  {
    var j := FoundFirst(h, 0);
    forall k: nat | k < j ensures BlankAt(h + x, k).None? { assert BlankAt(h, k).None?; }
    ScanSkips(h + x, 0, j);
  }

  lemma {:induction false} FoundFirst(h: Bytes, i: nat) returns (j: nat)
    requires BodyFrom(h, i).Some?
    ensures i <= j < |h| && BlankAt(h, j) == BodyFrom(h, i) && forall k: nat | i <= k < j :: BlankAt(h, k).None?
    decreases |h| - i
  {
    if BlankAt(h, i).Some? { j := i; } else { j := FoundFirst(h, i + 1); }
  }

  /** Pieces for which memory is had, and whose head is not refused. */
  predicate Sound(ps: seq<Piece>) { forall i | 0 <= i < |ps| :: ps[i].memory && !ps[i].refused }

  function Data(ps: seq<Piece>): Bytes { if ps == [] then [] else ps[0].data + Data(ps[1..]) }

  /** Behind the head every byte of the target is body. */
  lemma {:induction false} BodyExact(r: Response, ps: seq<Piece>, limit: nat)
    requires r.sent && !r.discard && !r.lost && Sound(ps)
    ensures var q := PutAll(r, ps, limit);
      q.sent && !q.discard && !q.lost && q.body == r.body + Total(ps) && q.out >= r.out + Total(ps)
    decreases |ps|
  {
    if ps != [] { BodyExact(Put(r, ps[0], limit), ps[1..], limit); }
  }

  /** However the target's output is cut: as long as it is within MAX_CGI_HEADERS, it is collected until its
      first blank line, and from there on it is body. */
  lemma {:induction false} SplitExact(r: Response, ps: seq<Piece>, limit: nat)
    requires !r.sent && !r.discard && !r.lost && r.body == 0 && BodyFrom(r.headers, 0).None? && Sound(ps)
    requires |r.headers + Data(ps)| <= MAX_CGI_HEADERS
    ensures var q, all := PutAll(r, ps, limit), r.headers + Data(ps);
      match BodyFrom(all, 0)
      case None => !q.sent && q.headers == all
      case Some(off) => q.sent && !q.lost && q.body == |all| - off
    decreases |ps|
  {
    if ps == [] {
      assert r.headers + Data(ps) == r.headers;
    } else {
      var h, q := r.headers + ps[0].data, Put(r, ps[0], limit);
      assert r.headers + Data(ps) == h + Data(ps[1..]);
      OneExact(r, ps[0], limit);
      if BodyFrom(h, 0).Some? {
        FirstBlankStays(h, Data(ps[1..]));
        BodyExact(q, ps[1..], limit);
        TotalData(ps[1..]);
      } else {
        SplitExact(q, ps[1..], limit);
      }
    }
  }

  lemma OneExact(r: Response, p: Piece, limit: nat)
    requires !r.sent && !r.discard && !r.lost && r.body == 0 && p.memory && !p.refused
    requires |r.headers + p.data| <= MAX_CGI_HEADERS
    ensures var q, h := Put(r, p, limit), r.headers + p.data;
      && !q.discard && !q.lost
      && match BodyFrom(h, 0)
         case None => q == r.(headers := h)
         case Some(off) => q.sent && q.body == |h| - off
  {
  }

  lemma {:induction false} TotalData(ps: seq<Piece>)
    ensures |Data(ps)| == Total(ps)
    decreases |ps|
  {
    if ps != [] { TotalData(ps[1..]); }
  }

  // ---- the bound, and exactly when it is the limit and one read ----

  /** In every run, with a limit: the unwritten body is at most the limit or MAX_CGI_HEADERS, and one read. */
  lemma BodyBound(es: seq<Event>, limit: nat, timeout: bool, id: Id)
    requires limit > 0
    ensures var rs := AfterAll(map[], es, limit, timeout);
      id in rs && rs[id].tracked ==> rs[id].body <= Most(limit)
  {
    RunFine(map[], es, limit, timeout);
  }

  /** In every run the unwritten body is at most the limit and one read. */
  ghost predicate LimitHolds(limit: nat, timeout: bool) {
    forall es: seq<Event>, id: Id :: WithinLimit(AfterAll(map[], es, limit, timeout), id, limit)
  }

  predicate WithinLimit(rs: map<Id, Response>, id: Id, limit: nat) {
    id in rs && rs[id].tracked ==> rs[id].body <= limit + READ_MAX
  }

  /** A whole read of text without a line end. */
  function Flood(n: nat): Piece { Piece(seq(n, _ => 'x'), 0, false, 0, true) }

  /** A target that sends five reads of text and no header block. */
  const FLOOD: seq<Event> := [Starts(0, true), Reads(0, [Flood(READ_MAX)]), Reads(0, [Flood(READ_MAX)]),
    Reads(0, [Flood(READ_MAX)]), Reads(0, [Flood(READ_MAX)]), Reads(0, [Flood(READ_MAX)])]

  lemma {:induction false} NoBlankIn(h: Bytes, i: nat)
    requires forall k | 0 <= k < |h| :: h[k] == 'x'
    ensures BodyFrom(h, i).None?
    decreases |h| - i
  {
    if i < |h| { NoBlankIn(h, i + 1); }
  }

  /** What is collected of a flood. */
  function Collected(n: nat, timeout: bool): Response {
    NEW.(tracked := true, deadline := timeout, headers := seq(n, _ => 'x'))
  }

  lemma Collects(n: nat, m: nat, limit: nat, timeout: bool)
    requires n + m <= MAX_CGI_HEADERS
    ensures PutAll(Collected(n, timeout), [Flood(m)], limit) == Collected(n + m, timeout)
  {
    var h := seq(n, _ => 'x') + seq(m, _ => 'x');
    assert h == seq(n + m, _ => 'x');
    NoBlankIn(h, 0);
    assert [Flood(m)][1..] == [];
  }

  lemma Ships(n: nat, m: nat, limit: nat, timeout: bool)
    requires n <= MAX_CGI_HEADERS < n + m
    ensures PutAll(Collected(n, timeout), [Flood(m)], limit).body == n + m
  {
    var h := seq(n, _ => 'x') + seq(m, _ => 'x');
    assert h == seq(n + m, _ => 'x');
    NoBlankIn(h, 0);
    assert [Flood(m)][1..] == [];
  }

  /** One read more of a flood. */
  lemma FloodStep(n: nat, es: seq<Event>, limit: nat, timeout: bool)
    requires n + READ_MAX <= MAX_CGI_HEADERS && es != [] && es[0] == Reads(0, [Flood(READ_MAX)])
    ensures AfterAll(map[0 := Collected(n, timeout)], es, limit, timeout)
         == AfterAll(map[0 := Collected(n + READ_MAX, timeout)], es[1..], limit, timeout)
  {
    Collects(n, READ_MAX, limit, timeout);
    assert Total([Flood(READ_MAX)]) == READ_MAX;
    var rs := map[0 := Collected(n, timeout)];
    assert rs[0 := Collected(n + READ_MAX, timeout)] == map[0 := Collected(n + READ_MAX, timeout)];
  }

  /** The five reads are all unwritten body, whatever the limit is. */
  lemma FloodShips(limit: nat, timeout: bool)
    ensures var rs := AfterAll(map[], FLOOD, limit, timeout);
      0 in rs && rs[0].tracked && rs[0].body == MAX_CGI_HEADERS + READ_MAX
  {
    var s0, s1 := FLOOD[1..], FLOOD[2..];
    assert Collected(0, timeout) == NEW.(tracked := true, deadline := timeout);
    assert AfterAll(map[], FLOOD, limit, timeout) == AfterAll(map[0 := Collected(0, timeout)], s0, limit, timeout);
    FloodStep(0, s0, limit, timeout);
    assert s0[1..] == s1;
    FloodStep(READ_MAX, s1, limit, timeout);
    FloodStep(2 * READ_MAX, s1[1..], limit, timeout);
    FloodStep(3 * READ_MAX, s1[1..][1..], limit, timeout);
    LastFlood(s1[1..][1..][1..], limit, timeout);
  }

  lemma LastFlood(es: seq<Event>, limit: nat, timeout: bool)
    requires es == [Reads(0, [Flood(READ_MAX)])]
    ensures var rs := AfterAll(map[0 := Collected(MAX_CGI_HEADERS, timeout)], es, limit, timeout);
      0 in rs && rs[0].tracked && rs[0].body == MAX_CGI_HEADERS + READ_MAX
  {
    Ships(MAX_CGI_HEADERS, READ_MAX, limit, timeout);
    NoBlankIn(Collected(MAX_CGI_HEADERS, timeout).headers, 0);
    PutAllSteady(Collected(MAX_CGI_HEADERS, timeout), [Flood(READ_MAX)], limit, timeout);
    assert Total([Flood(READ_MAX)]) == READ_MAX;
    assert es[1..] == [];
  }

  /** The limit and one read bound the body in every run if and only if the limit is at least MAX_CGI_HEADERS. */
  lemma LimitHoldsIff(limit: nat, timeout: bool)
    requires limit > 0
    ensures LimitHolds(limit, timeout) <==> limit >= MAX_CGI_HEADERS
  {
    if limit >= MAX_CGI_HEADERS {
      forall es: seq<Event>, id: Id ensures WithinLimit(AfterAll(map[], es, limit, timeout), id, limit) {
        BodyBound(es, limit, timeout, id);
      }
    } else {
      FloodShips(limit, timeout);
      assert !WithinLimit(AfterAll(map[], FLOOD, limit, timeout), 0, limit);
    }
  }

  // ---- the process ----

  class Gateway {
    const limit: nat              // http.response_buffer, 0 for none
    const timeout: bool           // is http.upstream_read_timeout set?
    var rs: map<Id, Response>
    var gauge: nat                // this process's responses_paused cell

    ghost predicate Valid()
      reads this
    {
      AllFine(rs, limit, timeout) && gauge == |PausedIds(rs)|
    }

    constructor (limit: nat, timeout: bool)
      ensures Valid() && rs == map[] && this.limit == limit && this.timeout == timeout
    {
      this.limit, this.timeout := limit, timeout;
      rs, gauge := map[], 0;
    }

    /** A request is handed to an upstream. */
    method Start(id: Id, tracked: bool)
      requires Valid() && id !in rs
      modifies this`rs
      ensures Valid() && rs == After(old(rs), Starts(id, tracked), limit, timeout)
    {
      var r := NEW.(tracked := tracked, deadline := timeout);
      PausedMore(rs, id, r);
      AfterFine(rs, Starts(id, tracked), limit, timeout);
      rs := rs[id := r];
    }

    /** A piece of n bytes of the body. */
    method Chunk(id: Id, n: nat, p: Piece)
      requires id in rs && gauge == |PausedIds(rs)|
      modifies this
      ensures gauge == |PausedIds(rs)| && rs == old(rs)[id := Chunked(old(rs)[id], n, p, limit)]
    {
      var r := rs[id];
      PausedCount(rs, id, Chunked(r, n, p, limit));
      if r.lost {
        assert rs == rs[id := r];
        return;
      }
      if !p.memory {
        rs := rs[id := r.(lost := true)];
        return;
      }
      r := r.(out := r.out + n + p.framing, body := r.body + n);
      if r.tracked && limit > 0 && !r.paused && r.out > limit {
        r := r.(paused := true, readEvent := false, deadline := false);
        gauge := gauge + 1;
      }
      rs := rs[id := r];
    }

    /** The reply starts. */
    method StartReply(id: Id, h: Bytes, off: nat, p: Piece)
      requires id in rs && gauge == |PausedIds(rs)| && off <= |h|
      modifies this
      ensures gauge == |PausedIds(rs)| && rs == old(rs)[id := Started(old(rs)[id], h, off, p, limit)]
    {
      var r := rs[id].(out := rs[id].out + p.head, headers := [], sent := true);
      if p.refused && off > 0 {
        var n := if p.memory then BAD_GATEWAY_LEN else 0;
        r := r.(out := r.out + n, body := r.body + n, discard := true);
        PausedCount(rs, id, r);
        rs := rs[id := r];
        return;
      }
      PausedCount(rs, id, r);
      rs := rs[id := r];
      if off < |h| {
        Chunk(id, |h| - off, p);
      }
    }

    /** The scan for the end of the header block, resumed three bytes before the new bytes. */
    method Scan(seen: Bytes, h: Bytes) returns (off: Option<nat>)
      requires seen <= h && BodyFrom(seen, 0).None?
      ensures off == BodyFrom(h, 0)
    {
      ghost var data := h[|seen|..];
      assert h == seen + data;
      ResumedScan(seen, data);
      var i: nat := if |seen| > 3 then |seen| - 3 else 0;
      while i + 1 < |h|
        invariant BodyFrom(h, i) == BodyFrom(h, 0)
        decreases |h| - i
      {
        if h[i] == '\n' && h[i + 1] == '\n' {
          return Some(i + 2);
        }
        if i + 3 < |h| && h[i] == '\r' && h[i + 1] == '\n' && h[i + 2] == '\r' && h[i + 3] == '\n' {
          return Some(i + 4);
        }
        i := i + 1;
      }
      off := None;
    }

    /** Output of the target: collected until its header block ends, or is too long to be one. */
    method Stdout(id: Id, p: Piece)
      requires id in rs && gauge == |PausedIds(rs)| && (!rs[id].sent ==> BodyFrom(rs[id].headers, 0).None?)
      modifies this
      ensures gauge == |PausedIds(rs)| && rs == old(rs)[id := Put(old(rs)[id], p, limit)]
    {
      if rs[id].discard {
        assert rs == rs[id := rs[id]];
        return;
      }
      if rs[id].sent {
        Chunk(id, |p.data|, p);
        return;
      }
      var h := rs[id].headers + p.data;
      var off := Scan(rs[id].headers, h);
      if off.Some? {
        StartReply(id, h, off.value, p);
      } else if |h| > MAX_CGI_HEADERS {
        StartReply(id, h, 0, p);
      } else {
        PausedCount(rs, id, rs[id].(headers := h));
        rs := rs[id := rs[id].(headers := h)];
      }
    }

    /** A readable upstream: at most READ_MAX bytes, in any pieces. */
    method Read(id: Id, ps: seq<Piece>)
      requires Valid() && id in rs && rs[id].readEvent && Total(ps) <= READ_MAX
      modifies this
      ensures Valid() && rs == old(rs)[id := PutAll(old(rs)[id], ps, limit)]
    {
      ghost var r0 := rs[id];
      ReadFine(r0, ps, limit, timeout);
      assert ps[0..] == ps && rs == rs[id := r0];
      for i := 0 to |ps|
        invariant id in rs && gauge == |PausedIds(rs)| && rs == old(rs)[id := rs[id]] && Steady(rs[id], limit, timeout)
        invariant PutAll(rs[id], ps[i..], limit) == PutAll(r0, ps, limit)
      {
        assert ps[i..][1..] == ps[i + 1..];
        PutSteady(rs[id], ps[i], limit, timeout);
        Stdout(id, ps[i]);
      }
      assert ps[|ps|..] == [];
    }

    /** An HTTP target's head is complete: the reply starts with it, and no body yet. */
    method Head(id: Id, p: Piece)
      requires Valid() && Possible(rs, Heads(id, p))
      modifies this
      ensures Valid() && rs == After(old(rs), Heads(id, p), limit, timeout)
    {
      AfterFine(rs, Heads(id, p), limit, timeout);
      StartReply(id, p.data, |p.data|, p);
    }

    /** The pause ends: the gauge goes down, the read event and the deadline come back. */
    method Resume(id: Id)
      requires id in rs && gauge == |PausedIds(rs)|
      modifies this
      ensures gauge == |PausedIds(rs)| && rs == old(rs)[id := Resumed(old(rs)[id], timeout)]
    {
      var r := rs[id];
      PausedCount(rs, id, Resumed(r, timeout));
      if r.paused {
        gauge := gauge - 1;
        r := r.(paused := false, readEvent := true, deadline := timeout);
      }
      rs := rs[id := r];
    }

    method Take(id: Id, n: nat, body: nat)
      requires id in rs && gauge == |PausedIds(rs)| && n <= rs[id].out
      modifies this`rs
      ensures gauge == |PausedIds(rs)| && rs == old(rs)[id := old(rs)[id].(out := old(rs)[id].out - n, body := body)]
    {
      var r := rs[id].(out := rs[id].out - n, body := body);
      PausedCount(rs, id, r);
      rs := rs[id := r];
    }

    /** The client takes n bytes; `body` of what is left is body.  An empty output resumes the upstream. */
    method Drain(id: Id, n: nat, body: nat)
      requires Valid() && Possible(rs, Drains(id, n, body))
      modifies this
      ensures Valid() && rs == old(rs)[id := Drained(old(rs)[id], n, body, timeout)]
    {
      ghost var before := rs;
      DrainedFine(rs[id], n, body, limit, timeout);
      FineUpdate(before, id, Drained(rs[id], n, body, timeout), limit, timeout);
      Take(id, n, body);
      ghost var taken := rs[id];
      if rs[id].out == 0 && rs[id].tracked {
        Resume(id);
        UpdatedTwice(before, id, taken, rs[id]);
      }
    }

    /** The request ends or its client leaves: a paused upstream that is still there is read again, and the
        request is freed. */
    method End(id: Id, alive: bool) returns (r: Response)
      requires Valid() && id in rs
      modifies this
      ensures Valid() && rs == old(rs) - {id} && !r.paused
      ensures r == if alive then Resumed(old(rs)[id], timeout) else old(rs)[id].(paused := false)
      ensures alive ==> r.readEvent && (r.deadline <==> timeout)
    {
      r := rs[id];
      PausedLess(rs, id);
      if r.paused {
        gauge := gauge - 1;
        r := r.(paused := false);
        if alive {
          r := r.(readEvent := true, deadline := timeout);
        }
      }
      rs := rs - {id};
    }

    /** The reply is cut short and its upstream dropped: the pause ends without a read event. */
    method Cut(id: Id) returns (r: Response)
      requires Valid() && id in rs
      modifies this
      ensures Valid() && rs == old(rs) - {id} && r == old(rs)[id].(paused := false)
    {
      r := rs[id];
      PausedLess(rs, id);
      if r.paused {
        gauge := gauge - 1;
        r := r.(paused := false);
      }
      rs := rs - {id};
    }

    method Handle(e: Event)
      requires Valid()
      modifies this
      ensures Valid() && rs == After(old(rs), e, limit, timeout)
    {
      if !Possible(rs, e) {
        return;
      }
      match e
      case Starts(id, tracked) => Start(id, tracked);
      case Heads(id, p) => Head(id, p);
      case Reads(id, ps) => Read(id, ps);
      case Drains(id, n, body) => Drain(id, n, body);
      case Ends(id, alive) => var _ := End(id, alive);
      case Cuts(id) => var _ := Cut(id);
    }

    /** Any run; an event that cannot happen is not delivered.  The responses are what the events make of
        them; in the end as at every moment the body is bounded, no paused upstream is read or timed, and
        the gauge is the number of pauses. */
    method Run(events: seq<Event>)
      requires Valid()
      modifies this
      ensures Valid() && rs == AfterAll(old(rs), events, limit, timeout)
      ensures forall id: Id | id in rs && rs[id].tracked && limit > 0 :: rs[id].body <= Most(limit)
      ensures forall id: Id | id in rs && rs[id].paused :: !rs[id].readEvent && !rs[id].deadline && rs[id].out > 0
      ensures forall id: Id | id in rs && rs[id].out == 0 :: !rs[id].paused && rs[id].readEvent
      ensures gauge == |PausedIds(rs)|
    {
      assert events[0..] == events;
      for i := 0 to |events|
        invariant Valid() && AfterAll(rs, events[i..], limit, timeout) == AfterAll(old(rs), events, limit, timeout)
      {
        assert events[i..][0] == events[i] && events[i..][1..] == events[i + 1..];
        Handle(events[i]);
      }
      assert events[|events|..] == [];
    }
  }
}
