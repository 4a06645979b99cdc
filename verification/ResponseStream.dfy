/**
 One upstream response from its first byte to its last: the resumed scan for the end of the
 head, interim heads, the final head and the body behind it, over any sequence of reads.
 The request is one that does not upgrade its connection.
 */
module ResponseStream {
  import opened Shared
  import opened BodyDecoder
  import opened ResponseHead
  import HeadScanner
  import opened HeadText

  const MAX_HEAD: nat := 256 * 1024

  /** How a complete head is judged; the parser below uses ResponseHead.Judge. */
  type Verdicts = Bytes -> Judged

  // ---- meaning of a whole stream ----

  /** The blank line that ends a head starts at i. */
  predicate Marks(s: Bytes, i: nat) {
    i + 4 <= |s| && s[i] == '\r' && s[i + 1] == '\n' && s[i + 2] == '\r' && s[i + 3] == '\n'
  }

  function EndOfHead(s: Bytes): (r: Option<nat>)
    ensures r.Some? ==> Marks(s, r.value) && forall j | 0 <= j < r.value :: !Marks(s, j)
    ensures r.None? ==> forall j: nat :: !Marks(s, j)
  {
    if |s| < 4 then None
    else if Marks(s, 0) then Some(0)
    else
      var r := EndOfHead(s[1..]);
      assert forall j: nat | 0 < j :: Marks(s, j) <==> Marks(s[1..], j - 1);
      if r.None? then None else Some(r.value + 1)
  }

  datatype Phase = Heading(pending: Bytes) | Streaming(b: Body) | Finished(rest: Bytes) | Failed

  datatype Answer = Answer(reply: Option<Reply>, payload: Bytes, phase: Phase)

  function PhaseOf(o: Outcome): Phase {
    match o
    case More(b) => Streaming(b)
    case Complete(rest) => Finished(rest)
    case Bad => Failed
  }

  function FromBody(r: Reply, d: Decoded): Answer { Answer(Some(r), d.payload, PhaseOf(d.outcome)) }

  /** A final head with the bytes that rode in behind it; some bodies are over before they begin. */
  function Started(r: Reply, tail: Bytes): Answer {
    if BodyOf(r) == Body(Length, 0, []) then Answer(Some(r), [], Finished(tail))
    else FromBody(r, Feed(BodyOf(r), tail))
  }

  function Parse(s: Bytes, judge: Verdicts): Answer
    decreases |s|
  {
    match EndOfHead(s)
    case None => Answer(None, [], Heading(s))
    case Some(i) =>
      match judge(s[..i + 2])
      case Invalid => Answer(None, [], Failed)
      case Interim => Parse(s[i + 4..], judge)
      case Final(r) => Started(r, s[i + 4..])
  }

  // ---- reading it piece by piece ----

  /** The two limits, checked at the end of a read only. */
  function Limited(a: Answer): Answer {
    if a.phase.Heading? && |a.phase.pending| > MAX_HEAD then a.(phase := Failed)
    else if a.phase.Streaming? && a.phase.b.mode.ChunkSize? && |a.phase.b.line| > LINE_MAX then a.(phase := Failed)
    else a
  }

  /** More bytes for a response in progress. */
  function Resume(a: Answer, piece: Bytes, judge: Verdicts): Answer {
    match a.phase
    case Heading(p) => Parse(p + piece, judge)
    case Streaming(b) =>
      var d := Feed(b, piece);
      Answer(a.reply, a.payload + d.payload, PhaseOf(d.outcome))
    case Finished(rest) => a.(phase := Finished(rest + piece))
    case Failed => a
  }

  function Reads(a: Answer, ps: seq<Bytes>, judge: Verdicts): Answer
    decreases |ps|
  {
    if ps == [] then a else Reads(Limited(Resume(a, ps[0], judge)), ps[1..], judge)
  }

  const NOTHING := Answer(None, [], Heading([]))

  /** At no point of the stream is a head past MAX_HEAD or a chunk-size line past LINE_MAX pending. */
  ghost predicate WithinLimits(s: Bytes, judge: Verdicts) {
    forall k: nat | k <= |s| :: FineAt(s, k, judge)
  }

  predicate FineAt(s: Bytes, k: nat, judge: Verdicts)
    requires k <= |s|
  {
    Limited(Parse(s[..k], judge)) == Parse(s[..k], judge)
  }

  lemma EndOfHeadPrefix(x: Bytes, y: Bytes)
    requires EndOfHead(x).Some?
    ensures EndOfHead(x + y) == EndOfHead(x)
  {
    var i := EndOfHead(x).value;
    assert Marks(x + y, i);
    forall j | 0 <= j < i ensures !Marks(x + y, j) {
      assert !Marks(x, j);
    }
    assert EndOfHead(x + y).Some?;
    var k := EndOfHead(x + y).value;
    assert !(k < i) && !(i < k);
  }

  /** Parsing resumes anywhere. */
  lemma {:induction false} ParseConcat(x: Bytes, y: Bytes, judge: Verdicts)
    ensures Parse(x + y, judge) == Resume(Parse(x, judge), y, judge)
    decreases |x|
  {
    if EndOfHead(x).Some? {
      EndOfHeadPrefix(x, y);
      var i := EndOfHead(x).value;
      assert (x + y)[..i + 2] == x[..i + 2];
      assert (x + y)[i + 4..] == x[i + 4..] + y;
      match judge(x[..i + 2]) {
        case Invalid =>
        case Interim => ParseConcat(x[i + 4..], y, judge);
        case Final(r) => FeedConcat(BodyOf(r), x[i + 4..], y);
      }
    }
  }

  /** However the stream is cut into reads, the answer is the meaning of the whole stream. */
  lemma {:induction false} SplitIndependent(x: Bytes, ps: seq<Bytes>, judge: Verdicts)
    requires WithinLimits(x + Concat(ps), judge)
    ensures Reads(Parse(x, judge), ps, judge) == Parse(x + Concat(ps), judge)
    decreases |ps|
  {
    if ps == [] {
      assert x + Concat(ps) == x;
    } else {
      var y := x + ps[0];
      ParseConcat(x, ps[0], judge);
      assert x + Concat(ps) == y + Concat(ps[1..]);
      assert FineAt(x + Concat(ps), |y|, judge) && (x + Concat(ps))[..|y|] == y;
      SplitIndependent(y, ps[1..], judge);
    }
  }

  /** From the first byte on. */
  lemma AnyCutting(ps: seq<Bytes>, judge: Verdicts)
    requires WithinLimits(Concat(ps), judge)
    ensures Reads(NOTHING, ps, judge) == Parse(Concat(ps), judge)
  {
    assert [] + Concat(ps) == Concat(ps);
    assert Parse([], judge) == NOTHING;
    SplitIndependent([], ps, judge);
  }

  lemma TwoReads(x: Bytes, y: Bytes, judge: Verdicts)
    ensures Concat([x, y]) == x + y
    ensures Limited(Parse(x, judge)).phase.Failed? ==> Reads(NOTHING, [x, y], judge).phase.Failed?
  {
    assert [x, y][1..] == [y] && [y][1..] == [];
    assert Concat([y]) == y + [] == y;
    assert [] + x == x;
    var a := Limited(Parse(x, judge));
    assert Reads(NOTHING, [x, y], judge) == Reads(a, [y], judge) == Limited(Resume(a, y, judge));
  }

  /** Past a limit, the cut right there fails. */
  lemma CutFails(s: Bytes, judge: Verdicts) returns (ps: seq<Bytes>)
    requires !WithinLimits(s, judge)
    ensures Concat(ps) == s && Reads(NOTHING, ps, judge).phase.Failed?
  {
    var k: nat :| k <= |s| && !FineAt(s, k, judge);
    TwoReads(s[..k], s[k..], judge);
    assert s[..k] + s[k..] == s;
    ps := [s[..k], s[k..]];
  }

  lemma LimitsAtEnd(s: Bytes, judge: Verdicts)
    requires WithinLimits(s, judge)
    ensures Limited(Parse(s, judge)) == Parse(s, judge)
  {
    assert FineAt(s, |s|, judge) && s[..|s|] == s;
  }

  // ---- interim heads ----

  /** A complete head, blank line included. */
  predicate IsHead(h: Bytes) { |h| >= 4 && EndOfHead(h) == Some(|h| - 4) }

  function Verdict(h: Bytes, judge: Verdicts): Judged
    requires IsHead(h)
  {
    judge(h[..|h| - 2])
  }

  lemma HeadThen(h: Bytes, rest: Bytes, judge: Verdicts)
    requires IsHead(h)
    ensures Verdict(h, judge).Invalid? ==> Parse(h + rest, judge) == Answer(None, [], Failed)
    ensures Verdict(h, judge).Interim? ==> Parse(h + rest, judge) == Parse(rest, judge)
    ensures Verdict(h, judge).Final? ==>
      Parse(h + rest, judge) == Started(Verdict(h, judge).reply, rest)
  {
    EndOfHeadPrefix(h, rest);
    assert (h + rest)[..|h| - 2] == h[..|h| - 2];
    assert (h + rest)[|h|..] == rest;
  }

  // ---- which streams keep within the limits ----

  /** Heads no longer than MAX_HEAD and the byte that completes them, no more than MAX_HEAD bytes of a head
      that is not complete, and no chunk-size line longer than LINE_MAX. */
  ghost predicate Modest(s: Bytes, judge: Verdicts)
    decreases |s|
  {
    match EndOfHead(s)
    case None => |s| <= MAX_HEAD
    case Some(i) =>
      && i + 4 <= MAX_HEAD + 1
      && match judge(s[..i + 2])
         case Invalid => true
         case Interim => Modest(s[i + 4..], judge)
         case Final(r) => ModestBody(r, s[i + 4..])
  }

  predicate ModestBody(r: Reply, tail: Bytes) {
    BodyOf(r) == Body(Length, 0, []) || ShortLines(BodyOf(r), tail)
  }

  predicate BodyFineAt(r: Reply, tail: Bytes, k: nat)
    requires k <= |tail|
  {
    Limited(Started(r, tail[..k])) == Started(r, tail[..k])
  }

  lemma BodyWithin(r: Reply, tail: Bytes)
    ensures ModestBody(r, tail) <==> forall k: nat | k <= |tail| :: BodyFineAt(r, tail, k)
  {
    var b := BodyOf(r);
    if ShortLines(b, tail) {
      forall k: nat | k <= |tail| ensures BodyFineAt(r, tail, k) {
        assert tail == tail[..k] + tail[k..];
        ShortLinesConcat(b, tail[..k], tail[k..]);
        ShortLinesEnd(b, tail[..k]);
      }
    } else if b != Body(Length, 0, []) {
      var k := LongLinePrefix(b, tail);
      assert !BodyFineAt(r, tail, k);
    }
  }

  /** Before the end of a head all of it is pending. */
  lemma FineBefore(s: Bytes, k: nat, judge: Verdicts)
    requires k <= |s| && forall j: nat | j + 4 <= k :: !Marks(s, j)
    ensures FineAt(s, k, judge) <==> k <= MAX_HEAD
  {
    var p := s[..k];
    assert forall j: nat :: Marks(p, j) ==> Marks(s, j) && j + 4 <= k;
    assert EndOfHead(p).None?;
  }

  predicate FineBehind(h: Bytes, rest: Bytes, k: nat, judge: Verdicts)
    requires k <= |rest|
  {
    FineAt(h + rest, |h| + k, judge)
  }

  /** Behind a head its verdict decides. */
  lemma BehindHead(h: Bytes, rest: Bytes, k: nat, judge: Verdicts)
    requires IsHead(h) && k <= |rest|
    ensures FineBehind(h, rest, k, judge) <==>
      match Verdict(h, judge)
      case Invalid => true
      case Interim => FineAt(rest, k, judge)
      case Final(r) => BodyFineAt(r, rest, k)
  {
    assert (h + rest)[..|h| + k] == h + rest[..k];
    HeadThen(h, rest[..k], judge);
  }

  /** Every point of a stream is in its head or behind it. */
  lemma Halves(h: Bytes, rest: Bytes, judge: Verdicts)
    ensures WithinLimits(h + rest, judge) <==>
      && (forall k: nat | k < |h| :: FineAt(h + rest, k, judge))
      && (forall k: nat | k <= |rest| :: FineBehind(h, rest, k, judge))
  {
    if !WithinLimits(h + rest, judge) {
      var k: nat :| k <= |h + rest| && !FineAt(h + rest, k, judge);
      if k >= |h| { assert !FineBehind(h, rest, k - |h|, judge); }
    }
  }

  lemma HeadPending(h: Bytes, rest: Bytes, judge: Verdicts)
    requires IsHead(h)
    ensures (forall k: nat | k < |h| :: FineAt(h + rest, k, judge)) <==> |h| <= MAX_HEAD + 1
  {
    forall k: nat | k < |h| ensures FineAt(h + rest, k, judge) <==> k <= MAX_HEAD {
      forall j: nat | j + 4 <= k ensures !Marks(h + rest, j) { assert !Marks(h, j); }
      FineBefore(h + rest, k, judge);
    }
    assert FineAt(h + rest, |h| - 1, judge) <==> |h| - 1 <= MAX_HEAD;
  }

  lemma InterimBehind(h: Bytes, rest: Bytes, judge: Verdicts)
    requires IsHead(h) && Verdict(h, judge).Interim?
    ensures (forall k: nat | k <= |rest| :: FineBehind(h, rest, k, judge)) <==> WithinLimits(rest, judge)
  {
    forall k: nat | k <= |rest| ensures FineBehind(h, rest, k, judge) <==> FineAt(rest, k, judge) {
      BehindHead(h, rest, k, judge);
    }
  }

  lemma BodyBehind(h: Bytes, rest: Bytes, r: Reply, judge: Verdicts)
    requires IsHead(h) && Verdict(h, judge) == Final(r)
    ensures (forall k: nat | k <= |rest| :: FineBehind(h, rest, k, judge)) <==> ModestBody(r, rest)
  {
    forall k: nat | k <= |rest| ensures FineBehind(h, rest, k, judge) <==> BodyFineAt(r, rest, k) {
      BehindHead(h, rest, k, judge);
    }
    BodyWithin(r, rest);
  }

  /** What the limits say of a stream that begins with a complete head. */
  lemma HeadWithin(h: Bytes, rest: Bytes, judge: Verdicts)
    requires IsHead(h)
    ensures WithinLimits(h + rest, judge) <==>
      && |h| <= MAX_HEAD + 1
      && (Verdict(h, judge).Interim? ==> WithinLimits(rest, judge))
      && (Verdict(h, judge).Final? ==> ModestBody(Verdict(h, judge).reply, rest))
  {
    Halves(h, rest, judge);
    HeadPending(h, rest, judge);
    match Verdict(h, judge) {
      case Invalid =>
        forall k: nat | k <= |rest| ensures FineBehind(h, rest, k, judge) { BehindHead(h, rest, k, judge); }
      case Interim => InterimBehind(h, rest, judge);
      case Final(r) => BodyBehind(h, rest, r, judge);
    }
  }

  /** The limits hold at every point of a stream exactly when its heads and lines are that short. */
  lemma {:induction false} ModestIff(s: Bytes, judge: Verdicts)
    ensures WithinLimits(s, judge) <==> Modest(s, judge)
    decreases |s|
  {
    if EndOfHead(s).None? {
      forall k: nat | k <= |s| ensures FineAt(s, k, judge) <==> k <= MAX_HEAD { FineBefore(s, k, judge); }
      assert FineAt(s, |s|, judge) <==> |s| <= MAX_HEAD;
    } else {
      var i := EndOfHead(s).value;
      var h, rest := s[..i + 4], s[i + 4..];
      assert s == h + rest;
      FrontIsHead(s, i);
      assert h[..|h| - 2] == s[..i + 2];
      HeadWithin(h, rest, judge);
      ModestIff(rest, judge);
    }
  }

  lemma FrontIsHead(s: Bytes, i: nat)
    requires EndOfHead(s) == Some(i)
    ensures IsHead(s[..i + 4])
  {
    var h := s[..i + 4];
    assert Marks(h, i);
    assert forall j: nat :: Marks(h, j) ==> Marks(s, j);
    var e := EndOfHead(h).value;
    assert !(e < i) && !(i < e);
  }

  /** A stream with short heads and lines means the same however it is cut into reads. */
  lemma ModestAnyCutting(ps: seq<Bytes>, judge: Verdicts)
    requires Modest(Concat(ps), judge)
    ensures Reads(NOTHING, ps, judge) == Parse(Concat(ps), judge)
  {
    ModestIff(Concat(ps), judge);
    AnyCutting(ps, judge);
  }

  /** For a stream that one read accepts, every cut agrees with it if and only if its heads and lines are short. */
  lemma AnyCuttingIff(s: Bytes, judge: Verdicts)
    requires !Limited(Parse(s, judge)).phase.Failed?
    ensures Modest(s, judge) <==>
      forall ps | Concat(ps) == s :: Reads(NOTHING, ps, judge) == Limited(Parse(s, judge))
  {
    ModestIff(s, judge);
    var one := Limited(Parse(s, judge));
    if WithinLimits(s, judge) {
      forall ps | Concat(ps) == s ensures Reads(NOTHING, ps, judge) == one {
        AnyCutting(ps, judge);
        LimitsAtEnd(s, judge);
      }
    } else {
      var ps := CutFails(s, judge);
      assert Concat(ps) == s && Reads(NOTHING, ps, judge) != one;
    }
  }

  // ---- whole responses ----

  predicate IsInterim(h: Bytes, judge: Verdicts) {
    IsHead(h) && Verdict(h, judge).Interim?
  }

  lemma {:induction false} DropFront(meaning: Bytes -> Answer, hs: seq<Bytes>, s: Bytes)
    requires forall i, rest | 0 <= i < |hs| :: meaning(hs[i] + rest) == meaning(rest)
    ensures meaning(Concat(hs) + s) == meaning(s)
    decreases |hs|
  {
    if hs == [] {
      assert Concat(hs) + s == s;
    } else {
      assert Concat(hs) + s == hs[0] + (Concat(hs[1..]) + s);
      forall i, rest | 0 <= i < |hs[1..]| ensures meaning(hs[1..][i] + rest) == meaning(rest) {
        assert hs[1..][i] == hs[i + 1];
      }
      DropFront(meaning, hs[1..], s);
    }
  }

  /** Any number of interim heads in front of a stream changes nothing of the answer. */
  lemma InterimsDiscarded(hs: seq<Bytes>, s: Bytes, judge: Verdicts)
    requires forall i | 0 <= i < |hs| :: IsInterim(hs[i], judge)
    ensures Parse(Concat(hs) + s, judge) == Parse(s, judge)
  {
    var meaning := x => Parse(x, judge);
    forall i, rest | 0 <= i < |hs| ensures meaning(hs[i] + rest) == meaning(rest) {
      HeadThen(hs[i], rest, judge);
    }
    DropFront(meaning, hs, s);
  }

  /** Interim heads, a final head and what is behind it are within the limits when each of them is. */
  lemma {:induction false} ResponseWithin(hs: seq<Bytes>, h: Bytes, tail: Bytes, judge: Verdicts)
    requires forall i | 0 <= i < |hs| :: IsInterim(hs[i], judge) && |hs[i]| <= MAX_HEAD
    requires IsHead(h) && |h| <= MAX_HEAD && Verdict(h, judge).Final?
    requires ModestBody(Verdict(h, judge).reply, tail)
    ensures WithinLimits(Concat(hs) + (h + tail), judge)
    decreases |hs|
  {
    if hs == [] {
      assert Concat(hs) + (h + tail) == h + tail;
      HeadWithin(h, tail, judge);
    } else {
      var rest := Concat(hs[1..]) + (h + tail);
      assert Concat(hs) + (h + tail) == hs[0] + rest;
      assert IsInterim(hs[0], judge);
      ResponseWithin(hs[1..], h, tail, judge);
      HeadWithin(hs[0], rest, judge);
    }
  }

  /** However it is cut into reads, a response delivers what its final head and the bytes behind it mean,
      for heads of at most MAX_HEAD bytes and any number of interim ones. */
  lemma ResponseAnyCutting(hs: seq<Bytes>, h: Bytes, tail: Bytes, ps: seq<Bytes>, judge: Verdicts)
    requires forall i | 0 <= i < |hs| :: IsInterim(hs[i], judge) && |hs[i]| <= MAX_HEAD
    requires IsHead(h) && |h| <= MAX_HEAD && Verdict(h, judge).Final?
    requires ModestBody(Verdict(h, judge).reply, tail) && Concat(ps) == Concat(hs) + (h + tail)
    ensures Reads(NOTHING, ps, judge) == Started(Verdict(h, judge).reply, tail)
  {
    ResponseWithin(hs, h, tail, judge);
    AnyCutting(ps, judge);
    InterimsDiscarded(hs, h + tail, judge);
    HeadThen(h, tail, judge);
  }

  /** A chunked response delivers exactly its payload, however it is cut. */
  lemma ChunkedAnyCutting(hs: seq<Bytes>, h: Bytes, m: Message, rest: Bytes, ps: seq<Bytes>, judge: Verdicts)
    requires forall i | 0 <= i < |hs| :: IsInterim(hs[i], judge) && |hs[i]| <= MAX_HEAD
    requires IsHead(h) && |h| <= MAX_HEAD && Verdict(h, judge).Final? && ValidMessage(m)
    requires BodyOf(Verdict(h, judge).reply) == CHUNKED
    requires Concat(ps) == Concat(hs) + (h + (Encode(m) + rest))
    ensures Reads(NOTHING, ps, judge) == Answer(Some(Verdict(h, judge).reply), Payload(m.chunks), Finished(rest))
  {
    RoundTrip(m, rest);
    ResponseAnyCutting(hs, h, Encode(m) + rest, ps, judge);
  }

  /** A counted response delivers exactly the bytes its head counts, however it is cut. */
  lemma CountedAnyCutting(hs: seq<Bytes>, h: Bytes, data: Bytes, rest: Bytes, ps: seq<Bytes>, judge: Verdicts)
    requires forall i | 0 <= i < |hs| :: IsInterim(hs[i], judge) && |hs[i]| <= MAX_HEAD
    requires IsHead(h) && |h| <= MAX_HEAD && Verdict(h, judge).Final?
    requires BodyOf(Verdict(h, judge).reply) == Body(Length, |data|, [])
    requires Concat(ps) == Concat(hs) + (h + (data + rest))
    ensures Reads(NOTHING, ps, judge) == Answer(Some(Verdict(h, judge).reply), data, Finished(rest))
  {
    var b, tail := BodyOf(Verdict(h, judge).reply), data + rest;
    NoSizeLines(b, tail);
    ResponseAnyCutting(hs, h, tail, ps, judge);
    assert tail[..|data|] == data && tail[|data|..] == rest;
    if data != [] { LengthEnds(b, tail); }
  }

  // ---- responses as they are written ----

  predicate HeadLine(l: Bytes) { l != [] && OneLine(l) }

  /** The head of these lines, with its blank line. */
  function HeadOf(ls: seq<Bytes>): Bytes { Sent(ls) + "\r\n" }

  /** The blank line in front of h is the first one of l and h. */
  lemma NoneInside(l: Bytes, h: Bytes, j: nat)
    requires HeadLine(l) && j < |l| + 2 && (j == |l| ==> !(|h| >= 2 && h[0] == '\r' && h[1] == '\n'))
    ensures !Marks(l + "\r\n" + h, j)
  {
    var s := l + "\r\n" + h;
    assert s[|l|] == '\r' && s[|l| + 1] == '\n';
    if j + 1 < |l| { assert s[j + 1] == l[j + 1]; }
    if j == |l| && |h| >= 2 { assert s[j + 2] == h[0] && s[j + 3] == h[1]; }
  }

  /** It ends where it says. */
  lemma {:induction false} HeadEnds(ls: seq<Bytes>)
    requires ls != [] && forall i | 0 <= i < |ls| :: HeadLine(ls[i])
    ensures var h := HeadOf(ls); Marks(h, |h| - 4) && forall j: nat | j < |h| - 4 :: !Marks(h, j)
    decreases |ls|
  {
    var l, more := ls[0], ls[1..];
    var h, rest := HeadOf(ls), HeadOf(more);
    assert h == l + "\r\n" + rest;
    if more == [] {
      assert rest == "\r\n";
      forall j: nat | j < |h| - 4 ensures !Marks(h, j) { NoneInside(l, rest, j); }
    } else {
      HeadEnds(more);
      NotBlank(more);
      forall j: nat | j < |h| - 4 ensures !Marks(h, j) {
        if j < |l| + 2 { NoneInside(l, rest, j); } else { MarksBehind(l, rest, j); }
      }
      MarksBehind(l, rest, |h| - 4);
    }
  }

  lemma MarksBehind(l: Bytes, h: Bytes, j: nat)
    requires j >= |l| + 2
    ensures Marks(l + "\r\n" + h, j) <==> Marks(h, j - |l| - 2)
  {
    var s := l + "\r\n" + h;
    assert forall k | |l| + 2 <= k < |s| :: s[k] == h[k - |l| - 2];
  }

  lemma NotBlank(ls: seq<Bytes>)
    requires ls != [] && HeadLine(ls[0])
    ensures var h := HeadOf(ls); !(h[0] == '\r' && h[1] == '\n')
  {
    var h := HeadOf(ls);
    assert h[0] == ls[0][0] && h[1] == if |ls[0]| > 1 then ls[0][1] else '\r';
  }

  lemma IsHeadOf(ls: seq<Bytes>)
    requires ls != [] && forall i | 0 <= i < |ls| :: HeadLine(ls[i])
    ensures IsHead(HeadOf(ls)) && HeadOf(ls)[..|HeadOf(ls)| - 2] == Sent(ls)
  {
    HeadEnds(ls);
  }

  /** How a request that is not HEAD judges. */
  const ORDINARY: Verdicts := (x: Bytes) => Judge(x, false)

  /** The verdict on the head of a status line and lines, from their text. */
  lemma VerdictText(status: Bytes, lines: seq<Bytes>)
    requires HeadLine(status) && forall i | 0 <= i < |lines| :: HeadLine(lines[i])
    ensures var h := HeadOf([status] + lines);
      IsHead(h) && SaysOf(Verdict(h, ORDINARY), StatusCode(status), lines, false)
  {
    IsHeadOf([status] + lines);
    JudgeText(status, lines, false);
  }

  /** The lengths in these lines agree. */
  predicate Agreed(lines: seq<Bytes>) { AllAre(LengthValues(lines), Announced(lines)) }

  /** A final code that may have a body. */
  predicate WithBody(code: int) { code >= 200 && code != 204 && code != 304 }

  /** A response whose last Transfer-Encoding line lists "chunked" delivers exactly its payload, however it is
      cut into reads, with its code and its ordinary headers, behind any number of interim heads. */
  lemma ChunkedText(hs: seq<Bytes>, status: Bytes, lines: seq<Bytes>, m: Message, rest: Bytes, ps: seq<Bytes>)
    requires forall i | 0 <= i < |hs| :: IsInterim(hs[i], ORDINARY) && |hs[i]| <= MAX_HEAD
    requires HeadLine(status) && forall i | 0 <= i < |lines| :: HeadLine(lines[i])
    requires |HeadOf([status] + lines)| <= MAX_HEAD && WithBody(StatusCode(status)) && Agreed(lines)
    requires LastSays(lines, "Transfer-Encoding", "chunked") && ValidMessage(m)
    requires Concat(ps) == Concat(hs) + (HeadOf([status] + lines) + (Encode(m) + rest))
    ensures var a := Reads(NOTHING, ps, ORDINARY);
      && a.payload == Payload(m.chunks) && a.phase == Finished(rest) && a.reply.Some?
      && a.reply.value.code == StatusCode(status) && Others(a.reply.value.headers) == Ordinaries(lines)
  {
    VerdictText(status, lines);
    ChunkedAnyCutting(hs, HeadOf([status] + lines), m, rest, ps, ORDINARY);
  }

  /** A response whose lines agree on a length, without chunks, delivers exactly so many bytes. */
  lemma CountedText(hs: seq<Bytes>, status: Bytes, lines: seq<Bytes>, data: Bytes, rest: Bytes, ps: seq<Bytes>)
    requires forall i | 0 <= i < |hs| :: IsInterim(hs[i], ORDINARY) && |hs[i]| <= MAX_HEAD
    requires HeadLine(status) && forall i | 0 <= i < |lines| :: HeadLine(lines[i])
    requires |HeadOf([status] + lines)| <= MAX_HEAD && WithBody(StatusCode(status)) && Agreed(lines)
    requires !LastSays(lines, "Transfer-Encoding", "chunked") && Announced(lines) == Some(|data|)
    requires Concat(ps) == Concat(hs) + (HeadOf([status] + lines) + (data + rest))
    ensures var a := Reads(NOTHING, ps, ORDINARY);
      && a.payload == data && a.phase == Finished(rest) && a.reply.Some?
      && a.reply.value.code == StatusCode(status) && Others(a.reply.value.headers) == Ordinaries(lines)
  {
    VerdictText(status, lines);
    CountedAnyCutting(hs, HeadOf([status] + lines), data, rest, ps, ORDINARY);
  }

  // ---- the parser of one connection ----

  /** The connection cannot serve another request: the target closes it, or the body ends with it. */
  predicate Consumes(r: Reply) { r.framing.close || BodyOf(r).mode.UntilClose? }

  /** The verdict on the first complete head of `s`, if there is one, and what follows it. */
  predicate FirstHead(s: Bytes, judge: Verdicts, j: Option<Judged>, tail: Bytes) {
    var end := EndOfHead(s);
    if end.None? then j.None?
    else j.Some? && j.value == judge(s[..end.value + 2]) && tail == s[end.value + 4..]
  }

  datatype Status = Active | Done | Dead

  class Response {
    const headRequest: bool
    ghost const judge: Verdicts
    var head: Bytes          // head bytes until the header block ends
    var headScan: nat        // where the end-of-head scan continues
    var headDone: bool
    var reply: Option<Reply>
    var expectEof: bool      // the response consumes its connection
    var status: Status
    const body: Decoder
    ghost var unread: Bytes  // bytes that arrived behind the completed response

    ghost predicate Faithful() {
      forall h {:trigger Judge(h, headRequest)} :: judge(h) == Judge(h, headRequest)
    }

    ghost predicate Ready()
      reads this, body
    {
      && (!headDone ==>
            headScan == |head| && EndOfHead(head).None? && |head| <= MAX_HEAD && reply.None? && body.sent == [])
      && (status.Active? && headDone ==> Valid(body.State()))
      && expectEof == ((reply.Some? && Consumes(reply.value)) || (status.Done? && unread != []))
    }

    ghost function Seen(): Answer
      reads this, body
    {
      Answer(reply, body.sent,
             if status.Dead? then Failed
             else if status.Done? then Finished(unread)
             else if headDone then Streaming(body.State())
             else Heading(head))
    }

    constructor (headRequest: bool)
      ensures Faithful() && Ready() && status.Active? && Seen() == NOTHING && this.headRequest == headRequest
      ensures fresh(body)
    {
      this.headRequest := headRequest;
      judge := h => Judge(h, headRequest);
      head, headScan, headDone, reply, expectEof, status, unread := [], 0, false, None, false, Active, [];
      body := new Decoder(Length, 0);
    }

    /** The end-of-head scan, resumed three bytes before where the last one stopped. */
    method Scan() returns (end: Option<nat>)
      requires forall j: nat | j + 3 < headScan :: !Marks(head, j)
      modifies `headScan
      ensures end == EndOfHead(head) && headScan == |head|
    {
      var i: nat := if headScan > 3 then headScan - 3 else 0;
      while i + 3 < |head|
        invariant forall j: nat | j < i :: !Marks(head, j)
      {
        if head[i] == '\r' && head[i + 1] == '\n' && head[i + 2] == '\r' && head[i + 3] == '\n' {
          headScan := |head|;
          assert Marks(head, i);
          return Some(i);
        }
        i := i + 1;
      }
      headScan := |head|;
      return None;
    }

    /** The response is complete; bytes behind it end the connection instead of being parsed. */
    method Complete(rest: Bytes)
      modifies `status, `expectEof, `unread
      ensures status == Done && unread == rest
      ensures expectEof == (old(expectEof) || rest != [])
    {
      if rest != [] {
        expectEof := true;
      }
      status, unread := Done, rest;
    }

    method BodyData(buf: Bytes)
      requires status.Active? && headDone && Valid(body.State())
      modifies `status, `expectEof, `unread, body
      ensures var d := Read(old(body.State()), buf);
        && body.sent == old(body.sent) + d.payload
        && match d.outcome
           case More(b) => status.Active? && body.State() == b && Valid(b)
           case Complete(rest) => status.Done? && unread == rest
           case Bad => status.Dead?
      ensures expectEof == (old(expectEof) || (status.Done? && unread != []))
    {
      var rc, pos := body.Receive(buf);
      if rc < 0 {
        status := Dead;
      } else if rc > 0 {
        Complete(buf[pos..]);
      }
    }

    /** The final head is known: choose the framing, then hand over what rode in behind it. */
    method Begin(r: Reply, tail: Bytes)
      requires status.Active? && !headDone && body.sent == []
      modifies this, body
      ensures headDone && reply == Some(r)
      ensures Seen() == Limited(Started(r, tail)) && Ready()
    {
      reply, headDone, head := Some(r), true, [];
      var b := BodyOf(r);
      body.mode, body.remaining, body.line := b.mode, b.remaining, b.line;
      expectEof := b.mode.UntilClose? || r.framing.close;
      if b.mode.Length? && b.remaining == 0 {
        Complete(tail);
      } else if tail != [] {
        BodyData(tail);
      }
    }

    /** Scans for a complete head and judges it. */
    method NextHead() returns (j: Option<Judged>, tail: Bytes)
      requires Faithful() && forall j: nat | j + 3 < headScan :: !Marks(head, j)
      modifies `headScan
      ensures headScan == |head| && FirstHead(head, judge, j, tail)
    {
      var end := Scan();
      if end.None? {
        return None, [];
      }
      var v := HeadScanner.HeadDone(head[..end.value + 2], headRequest);
      return Some(v), head[end.value + 4..];
    }

    /** Discards interim heads, shifting what rode in behind each to the front. */
    method SkipInterims() returns (j: Option<Judged>, tail: Bytes)
      requires Faithful() && forall j: nat | j + 3 < headScan :: !Marks(head, j)
      modifies `head, `headScan
      ensures headScan == |head| && FirstHead(head, judge, j, tail) && j != Some(Interim)
      ensures Parse(head, judge) == Parse(old(head), judge)
    {
      j, tail := NextHead();
      while j == Some(Interim)
        invariant headScan == |head| && FirstHead(head, judge, j, tail)
        invariant Parse(head, judge) == Parse(old(head), judge)
        decreases |head|
      {
        head, headScan := tail, 0;
        j, tail := NextHead();
      }
    }

    /** Acts on the verdict of a head that is not an interim one. */
    method Settle(j: Option<Judged>, tail: Bytes)
      requires status.Active? && !headDone && reply.None? && !expectEof && body.sent == [] && headScan == |head|
      requires FirstHead(head, judge, j, tail) && j != Some(Interim)
      modifies this, body
      ensures Ready() && Seen() == Limited(Parse(old(head), judge))
    {
      if j.None? {
        if |head| > MAX_HEAD {
          status, headDone := Dead, true;
        }
      } else if j.value.Invalid? {
        status, headDone := Dead, true;
      } else {
        Begin(j.value.reply, tail);
      }
    }

    method HeadData(buf: Bytes)
      requires Faithful() && Ready() && status.Active? && !headDone
      modifies this, body
      ensures Ready() && Seen() == Limited(Resume(old(Seen()), buf, judge))
    {
      head := head + buf;
      assert forall j: nat | j + 3 < headScan :: Marks(head, j) ==> Marks(old(head), j);
      var j, tail := SkipInterims();
      Settle(j, tail);
    }

    /** One read of the socket. */
    method Data(buf: Bytes)
      requires Faithful() && Ready() && status.Active?
      modifies this, body
      ensures Ready()
      ensures Seen() == Limited(Resume(old(Seen()), buf, judge))
    {
      if !headDone {
        HeadData(buf);
      } else {
        BodyData(buf);
      }
    }
  }
}
