/**
 The FastCGI record parser of an upstream connection (section 3.3 of the FastCGI
 Specification): an eight byte header, the content, the padding, in whatever pieces the
 socket delivers them.
 */
module RecordParser {
  import opened Shared

  type Byte = b: int | 0 <= b < 256

  const STDOUT: Byte := 6
  const END_REQUEST: Byte := 3

  /** What the parser hands over: one byte of STDOUT payload, or the end of the request. */
  datatype Event = Out(b: Byte) | End

  /** `hdr` is the partial header; `len` and `pad` are what is left of the current record. */
  datatype Rec = Rec(hdr: seq<Byte>, kind: Byte, len: nat, pad: nat)

  predicate Valid(r: Rec) {
    && |r.hdr| < 8
    && (r.len > 0 || r.pad > 0 ==> r.hdr == [])
  }

  const IDLE := Rec([], 0, 0, 0)

  /** The record is used up: an END_REQUEST is reported here and resets the parser. */
  function Settled(r: Rec): (Rec, seq<Event>) {
    if r.len == 0 && r.pad == 0 && r.kind == END_REQUEST then (IDLE, [End]) else (r, [])
  }

  function Header(h: seq<Byte>): Rec
    requires |h| == 8
  {
    Rec([], h[1], 256 * h[4] as int + h[5] as int, h[6])
  }

  // ---- meaning, byte by byte ----

  function Step(r: Rec, b: Byte): (n: (Rec, seq<Event>))
    requires Valid(r)
    ensures Valid(n.0)
  {
    if r.len == 0 && r.pad == 0 then
      var h := r.hdr + [b];
      if |h| < 8 then (r.(hdr := h), []) else Settled(Header(h))
    else if r.len > 0 then
      var (n, e) := Settled(r.(len := r.len - 1));
      (n, (if r.kind == STDOUT then [Out(b)] else []) + e)
    else
      Settled(r.(pad := r.pad - 1))
  }

  datatype Fed = Fed(r: Rec, events: seq<Event>)

  function Feed(r: Rec, s: seq<Byte>): (f: Fed)
    requires Valid(r)
    ensures Valid(f.r)
    decreases |s|
  {
    if s == [] then Fed(r, [])
    else
      var (n, e) := Step(r, s[0]);
      var f := Feed(n, s[1..]);
      Fed(f.r, e + f.events)
  }

  lemma {:induction false} FeedConcat(r: Rec, x: seq<Byte>, y: seq<Byte>)
    requires Valid(r)
    ensures var f := Feed(r, x); var g := Feed(f.r, y);
      Feed(r, x + y) == Fed(g.r, f.events + g.events)
    decreases |x|
  {
    if x == [] {
      assert x + y == y;
    } else {
      assert (x + y)[1..] == x[1..] + y;
      var (n, e) := Step(r, x[0]);
      FeedConcat(n, x[1..], y);
      var f := Feed(n, x[1..]);
      var g := Feed(f.r, y);
      assert e + (f.events + g.events) == (e + f.events) + g.events;
    }
  }

  function Reads(r: Rec, ps: seq<seq<Byte>>): Fed
    requires Valid(r)
    decreases |ps|
  {
    if ps == [] then Fed(r, [])
    else
      var f := Feed(r, ps[0]);
      var g := Reads(f.r, ps[1..]);
      Fed(g.r, f.events + g.events)
  }

  /** The events do not depend on how the stream was cut into reads. */
  lemma {:induction false} SplitIndependent(r: Rec, ps: seq<seq<Byte>>)
    requires Valid(r)
    ensures Reads(r, ps) == Feed(r, Concat(ps))
    decreases |ps|
  {
    if ps != [] {
      SplitIndependent(Feed(r, ps[0]).r, ps[1..]);
      FeedConcat(r, ps[0], Concat(ps[1..]));
    }
  }

  // ---- runs ----

  /** A run of header bytes that does not complete the header. */
  lemma {:induction false} HeaderRun(r: Rec, s: seq<Byte>)
    requires Valid(r) && r.len == 0 && r.pad == 0 && |r.hdr| + |s| < 8
    ensures Feed(r, s) == Fed(r.(hdr := r.hdr + s), [])
    decreases |s|
  {
    if s == [] {
      assert r.hdr + s == r.hdr;
    } else {
      var next := r.(hdr := r.hdr + [s[0]]);
      HeaderRun(next, s[1..]);
      assert next.hdr + s[1..] == r.hdr + s;
      FirstByte(r, s, next);
    }
  }

  /** A byte that only moves the parser on. */
  lemma FirstByte(r: Rec, s: seq<Byte>, next: Rec)
    requires Valid(r) && s != [] && Step(r, s[0]) == (next, [])
    ensures Feed(r, s) == Feed(next, s[1..])
  {
    var f := Feed(next, s[1..]);
    assert [] + f.events == f.events;
  }

  function Fold(n: (Rec, seq<Event>)): Fed { Fed(n.0, n.1) }

  lemma OneByte(r: Rec, b: Byte)
    requires Valid(r)
    ensures Feed(r, [b]) == Fold(Step(r, b))
  {
    assert [b][1..] == [];
  }

  /** A run that completes the header. */
  lemma HeaderEnds(r: Rec, s: seq<Byte>)
    requires Valid(r) && r.len == 0 && r.pad == 0 && |r.hdr| + |s| == 8
    ensures Feed(r, s) == Fold(Settled(Header(r.hdr + s)))
  {
    var n := |s| - 1;
    HeaderRun(r, s[..n]);
    assert s == s[..n] + [s[n]];
    FeedConcat(r, s[..n], [s[n]]);
    OneByte(r.(hdr := r.hdr + s[..n]), s[n]);
    assert r.hdr + s[..n] + [s[n]] == r.hdr + s;
  }

  function Outs(s: seq<Byte>): seq<Event> {
    if s == [] then [] else Outs(s[..|s| - 1]) + [Out(s[|s| - 1])]
  }

  function Payload(kind: Byte, s: seq<Byte>): seq<Event> { if kind == STDOUT then Outs(s) else [] }

  /** A run inside the content, and what its last byte settles. */
  lemma {:induction false} ContentRun(r: Rec, s: seq<Byte>)
    requires Valid(r) && 0 < |s| <= r.len
    ensures var (m, e) := Settled(r.(len := r.len - |s|));
      Feed(r, s) == Fed(m, Payload(r.kind, s) + e)
    decreases |s|
  {
    var n := |s| - 1;
    var mid := r.(len := r.len - n);
    assert s == s[..n] + [s[n]];
    if n > 0 {
      ContentRun(r, s[..n]);
      assert Payload(r.kind, s[..n]) + [] == Payload(r.kind, s[..n]);
    }
    FeedConcat(r, s[..n], [s[n]]);
    OneByte(mid, s[n]);
    var (m, e) := Settled(r.(len := r.len - |s|));
    assert Payload(r.kind, s[..n]) + ((if r.kind == STDOUT then [Out(s[n])] else []) + e) == Payload(r.kind, s) + e;
  }

  /** A run inside the padding. */
  lemma {:induction false} PaddingRun(r: Rec, s: seq<Byte>)
    requires Valid(r) && r.len == 0 && 0 < |s| <= r.pad
    ensures Feed(r, s) == Fold(Settled(r.(pad := r.pad - |s|)))
    decreases |s|
  {
    if |s| > 1 {
      PaddingRun(r.(pad := r.pad - 1), s[1..]);
    }
  }

  // ---- records ----

  datatype Record = Record(version: Byte, kind: Byte, idHigh: Byte, idLow: Byte, reserved: Byte,
                           content: seq<Byte>, padding: seq<Byte>)

  predicate Fits(x: Record) { |x.content| < 0x10000 && |x.padding| < 0x100 }

  function HeaderBytes(x: Record): (h: seq<Byte>)
    requires Fits(x)
    ensures |h| == 8
  {
    [x.version, x.kind, x.idHigh, x.idLow, |x.content| / 256, |x.content| % 256, |x.padding|, x.reserved]
  }

  function Encode(x: Record): seq<Byte>
    requires Fits(x)
  {
    HeaderBytes(x) + x.content + x.padding
  }

  function EncodeAll(xs: seq<Record>): seq<Byte>
    requires forall i | 0 <= i < |xs| :: Fits(xs[i])
  {
    if xs == [] then [] else Encode(xs[0]) + EncodeAll(xs[1..])
  }

  function Meaning(x: Record): seq<Event> {
    Payload(x.kind, x.content) + if x.kind == END_REQUEST then [End] else []
  }

  function MeaningAll(xs: seq<Record>): seq<Event> {
    if xs == [] then [] else Meaning(xs[0]) + MeaningAll(xs[1..])
  }

  /** Between two records nothing but the type of the last one is remembered. */
  predicate Between(r: Rec) { r.hdr == [] && r.len == 0 && r.pad == 0 }

  /** One record, from between records to between records. */
  lemma RecordFed(r: Rec, x: Record)
    requires Between(r) && Fits(x)
    ensures Between(Feed(r, Encode(x)).r)
    ensures Feed(r, Encode(x)).events == Meaning(x)
  {
    var h, body := HeaderBytes(x), Rec([], x.kind, |x.content|, |x.padding|);
    HeaderEnds(r, h);
    assert r.hdr + h == h && Header(h) == body;
    assert Encode(x) == h + (x.content + x.padding);
    FeedConcat(r, h, x.content + x.padding);
    if |x.content| > 0 || |x.padding| > 0 { BodyFed(body, x.content, x.padding); }
  }

  lemma BodyFed(r: Rec, content: seq<Byte>, padding: seq<Byte>)
    requires Valid(r) && r.len == |content| && r.pad == |padding| && (r.len > 0 || r.pad > 0)
    ensures Between(Feed(r, content + padding).r)
    ensures Feed(r, content + padding).events
         == Payload(r.kind, content) + if r.kind == END_REQUEST then [End] else []
  {
    FeedConcat(r, content, padding);
    if |content| > 0 { ContentRun(r, content); }
    if |padding| > 0 { PaddingRun(r.(len := 0), padding); }
  }

  lemma {:induction false} RecordsFed(r: Rec, xs: seq<Record>)
    requires Between(r) && forall i | 0 <= i < |xs| :: Fits(xs[i])
    ensures Between(Feed(r, EncodeAll(xs)).r)
    ensures Feed(r, EncodeAll(xs)).events == MeaningAll(xs)
    decreases |xs|
  {
    if xs != [] {
      RecordFed(r, xs[0]);
      RecordsFed(Feed(r, Encode(xs[0])).r, xs[1..]);
      FeedConcat(r, Encode(xs[0]), EncodeAll(xs[1..]));
    }
  }

  /** Every sequence of records, however its bytes are cut into reads, yields exactly the STDOUT
      payload in order and one End per END_REQUEST record. */
  lemma RecordsAnySplit(r: Rec, xs: seq<Record>, ps: seq<seq<Byte>>)
    requires Between(r) && (forall i | 0 <= i < |xs| :: Fits(xs[i])) && Concat(ps) == EncodeAll(xs)
    ensures Reads(r, ps).events == MeaningAll(xs) && Between(Reads(r, ps).r)
  {
    SplitIndependent(r, ps);
    RecordsFed(r, xs);
  }

  // ---- an END_REQUEST is reported when its last byte is in, and not before ----

  function Ends(es: seq<Event>): nat {
    if es == [] then 0 else (if es[0].End? then 1 else 0) + Ends(es[1..])
  }

  lemma {:induction false} EndsConcat(x: seq<Event>, y: seq<Event>)
    ensures Ends(x + y) == Ends(x) + Ends(y)
    decreases |x|
  {
    if x == [] { assert x + y == y; } else {
      assert (x + y)[1..] == x[1..] + y;
      EndsConcat(x[1..], y);
    }
  }

  /** END_REQUEST records that lie wholly inside the first k bytes. */
  function EndsWithin(xs: seq<Record>, k: nat): nat
    requires forall i | 0 <= i < |xs| :: Fits(xs[i])
  {
    if xs == [] || k < |Encode(xs[0])| then 0
    else (if xs[0].kind == END_REQUEST then 1 else 0) + EndsWithin(xs[1..], k - |Encode(xs[0])|)
  }

  lemma {:induction false} NoEnds(s: seq<Byte>)
    ensures Ends(Outs(s)) == 0
  {
    if s != [] {
      var n := |s| - 1;
      NoEnds(s[..n]);
      EndsConcat(Outs(s[..n]), [Out(s[n])]);
      assert [Out(s[n])][1..] == [];
    }
  }

  lemma {:induction false} StepEnds(r: Rec, s: seq<Byte>)
    requires Valid(r) && |s| < (if r.len == 0 && r.pad == 0 then 8 - |r.hdr| else r.len + r.pad)
    ensures Ends(Feed(r, s).events) == 0
    decreases |s|
  {
    if s != [] {
      var (n, e) := Step(r, s[0]);
      StepEnds(n, s[1..]);
      EndsConcat(e, Feed(n, s[1..]).events);
    }
  }

  /** A record that is not complete yet reports no end. */
  lemma PartialRecord(r: Rec, x: Record, k: nat)
    requires Between(r) && Fits(x) && k < |Encode(x)|
    ensures Ends(Feed(r, Encode(x)[..k]).events) == 0
  {
    var s := Encode(x)[..k];
    if k < 8 {
      StepEnds(r, s);
    } else {
      var h := HeaderBytes(x);
      HeaderEnds(r, h);
      assert r.hdr + h == h;
      assert s == h + s[8..];
      FeedConcat(r, h, s[8..]);
      assert Header(h) == Rec([], x.kind, |x.content|, |x.padding|);
      StepEnds(Header(h), s[8..]);
      assert [] + Feed(Header(h), s[8..]).events == Feed(Header(h), s[8..]).events;
    }
  }

  lemma {:induction false} EndsExactlyOnTime(r: Rec, xs: seq<Record>, k: nat)
    requires Between(r) && (forall i | 0 <= i < |xs| :: Fits(xs[i])) && k <= |EncodeAll(xs)|
    ensures Ends(Feed(r, EncodeAll(xs)[..k]).events) == EndsWithin(xs, k)
    decreases |xs|
  {
    if xs != [] {
      var s, x := EncodeAll(xs), Encode(xs[0]);
      if k < |x| {
        assert s[..k] == x[..k];
        PartialRecord(r, xs[0], k);
      } else {
        assert s[..k] == x + EncodeAll(xs[1..])[..k - |x|];
        RecordFed(r, xs[0]);
        FeedConcat(r, x, EncodeAll(xs[1..])[..k - |x|]);
        EndsExactlyOnTime(Feed(r, x).r, xs[1..], k - |x|);
        EndsConcat(Meaning(xs[0]), Feed(Feed(r, x).r, EncodeAll(xs[1..])[..k - |x|]).events);
        MeaningEnds(xs[0]);
      }
    }
  }

  lemma MeaningEnds(x: Record)
    ensures Ends(Meaning(x)) == if x.kind == END_REQUEST then 1 else 0
  {
    NoEnds(x.content);
    EndsConcat(Payload(x.kind, x.content), if x.kind == END_REQUEST then [End] else []);
    assert [End][1..] == [];
  }

  // ---- the parser of one connection ----

  /** From r, the bytes s lead to n and hand over es. */
  ghost predicate Leads(r: Rec, s: seq<Byte>, n: Rec, es: seq<Event>) {
    Valid(r) && Feed(r, s) == Fed(n, es)
  }

  lemma LeadsOn(r: Rec, buf: seq<Byte>, from: nat, to: nat, m: Rec, es: seq<Event>, n: Rec, e: seq<Event>)
    requires from <= to <= |buf| && Leads(r, buf[..from], m, es) && Leads(m, buf[from..to], n, e)
    ensures Leads(r, buf[..to], n, es + e)
  {
    assert buf[..to] == buf[..from] + buf[from..to];
    FeedConcat(r, buf[..from], buf[from..to]);
  }

  class Parser {
    var hdr: array<Byte>
    var hdrLen: nat
    var kind: Byte
    var len: nat
    var pad: nat
    var dead: bool            // the upstream was dropped while a request on it ended
    var events: seq<Event>    // everything handed over so far

    ghost predicate Ready()
      reads this, hdr
    {
      hdr.Length == 8 && hdrLen < 8 && Valid(State())
    }

    ghost function State(): Rec
      requires hdr.Length == 8 && hdrLen < 8
      reads this, hdr
    {
      Rec(hdr[..hdrLen], kind, len, pad)
    }

    constructor ()
      ensures Ready() && State() == IDLE && events == [] && !dead && fresh(hdr)
    {
      hdr := new Byte[8](_ => 0);
      hdrLen, kind, len, pad, dead, events := 0, 0, 0, 0, false, [];
    }

    /** The request is over.  What it triggers may drop this very upstream; then nothing more is read. */
    method RequestDone(dropped: bool)
      requires Ready()
      modifies this, hdr
      ensures hdr == old(hdr) && Ready() && State() == IDLE
      ensures events == old(events) + [End] && dead == (old(dead) || dropped)
    {
      events := events + [End];
      for i := 0 to 8
        invariant hdr.Length == 8
        modifies hdr
      {
        hdr[i] := 0;
      }
      hdrLen, kind, len, pad := 0, 0, 0, 0;
      if dropped {
        dead := true;
      }
    }

    /** Appends bytes to the partial header. */
    method Store(s: seq<Byte>)
      requires hdr.Length == 8 && hdrLen + |s| <= 8
      modifies this`hdrLen, hdr
      ensures hdrLen == old(hdrLen) + |s| && hdr[..hdrLen] == old(hdr[..hdrLen]) + s
    {
      for i := 0 to |s|
        invariant hdr[..hdrLen + i] == old(hdr[..hdrLen]) + s[..i]
        modifies hdr
      {
        hdr[hdrLen + i] := s[i];
      }
      hdrLen := hdrLen + |s|;
    }

    /** Header bytes up to the end of the buffer or of the header. */
    method HeaderTurn(buf: seq<Byte>, pos: nat, dropped: bool) returns (next: nat, ghost e: seq<Event>)
      requires Ready() && !dead && len == 0 && pad == 0 && pos < |buf|
      modifies this, hdr
      ensures hdr == old(hdr) && Ready() && pos < next <= |buf|
      ensures events == old(events) + e && Leads(old(State()), buf[pos..next], State(), e)
      ensures dead ==> e != [] && e[|e| - 1] == End
    {
      ghost var r := State();
      var take := if 8 - hdrLen < |buf| - pos then 8 - hdrLen else |buf| - pos;
      next := pos + take;
      Store(buf[pos..next]);
      e := [];
      ghost var h := r.hdr + buf[pos..next];
      if hdrLen < 8 {
        HeaderRun(r, buf[pos..next]);
        return;
      }
      HeaderEnds(r, buf[pos..next]);
      assert hdr[..8] == h;
      hdrLen := 0;
      kind := hdr[1];
      len := 256 * hdr[4] as int + hdr[5] as int;
      pad := hdr[6];
      assert State() == Header(h);
      if len == 0 && pad == 0 && kind == END_REQUEST {
        RequestDone(dropped);
        e := [End];
      }
    }

    /** Content or padding up to the end of the buffer or of that part. */
    method BodyTurn(buf: seq<Byte>, pos: nat, dropped: bool) returns (next: nat, ghost e: seq<Event>)
      requires Ready() && !dead && (len > 0 || pad > 0) && pos < |buf|
      modifies this, hdr
      ensures hdr == old(hdr) && Ready() && pos < next <= |buf|
      ensures events == old(events) + e && Leads(old(State()), buf[pos..next], State(), e)
      ensures dead ==> e != [] && e[|e| - 1] == End
    {
      ghost var r := State();
      var left := if len > 0 then len else pad;
      var take := if left < |buf| - pos then left else |buf| - pos;
      next := pos + take;
      e := [];
      if len > 0 {
        ContentRun(r, buf[pos..next]);
        e := Payload(kind, buf[pos..next]);
        if kind == STDOUT {
          events := events + Outs(buf[pos..next]);
        }
        len := len - take;
      } else {
        PaddingRun(r, buf[pos..next]);
        pad := pad - take;
      }
      if len == 0 && pad == 0 && kind == END_REQUEST {
        RequestDone(dropped);
        e := e + [End];
      }
    }

    method Turn(buf: seq<Byte>, pos: nat, dropped: bool) returns (next: nat, ghost e: seq<Event>)
      requires Ready() && !dead && pos < |buf|
      modifies this, hdr
      ensures hdr == old(hdr) && Ready() && pos < next <= |buf|
      ensures events == old(events) + e && Leads(old(State()), buf[pos..next], State(), e)
      ensures dead ==> e != [] && e[|e| - 1] == End
    {
      if len == 0 && pad == 0 {
        next, e := HeaderTurn(buf, pos, dropped);
      } else {
        next, e := BodyTurn(buf, pos, dropped);
      }
    }

    /** One read of the socket; `drops` says which of the requests that end here drop the upstream.
        The parser stops right behind such an end, otherwise it reads everything. */
    method Data(buf: seq<Byte>, drops: nat -> bool) returns (pos: nat)
      requires Ready() && !dead
      modifies this, hdr
      ensures hdr == old(hdr) && Ready() && pos <= |buf|
      ensures exists es :: events == old(events) + es && Leads(old(State()), buf[..pos], State(), es)
      ensures !dead ==> pos == |buf|
      ensures dead ==> events != [] && events[|events| - 1] == End
    {
      pos := 0;
      ghost var r := State();
      ghost var all: seq<Event> := [];
      assert Leads(r, buf[..0], r, []);
      while pos < |buf| && !dead
        invariant hdr == old(hdr) && Ready() && pos <= |buf|
        invariant events == old(events) + all && Leads(r, buf[..pos], State(), all)
        invariant dead ==> all != [] && all[|all| - 1] == End
        decreases |buf| - pos
      {
        ghost var before, from := State(), pos;
        ghost var e;
        pos, e := Turn(buf, pos, drops(pos));
        LeadsOn(r, buf, from, pos, before, all, State(), e);
        all := all + e;
      }
    }
  }
}
