/**
 The response body decoder of the HTTP/1.1 client transport: Content-Length, chunked and
 close-delimited bodies, fed in whatever pieces the socket delivers them.

 `Step` and `Feed` give the meaning one byte at a time; the class `Decoder` works on whole
 runs of a read buffer, as the gateway does, and is proved to compute `Feed`.
 */
module BodyDecoder {
  import opened Shared

  type Bytes = seq<char>

  const SIZE_MAX: nat := 0xFFFF_FFFF_FFFF_FFFF
  const LINE_MAX: nat := 16384

  datatype Mode = Length | ChunkSize | ChunkData | ChunkCrlf | Trailers | UntilClose

  /** `line` is a partial size or trailer line, or the held '\r' of a split CRLF. */
  datatype Body = Body(mode: Mode, remaining: nat, line: Bytes)

  predicate Valid(b: Body) {
    && (b.mode.ChunkData? ==> b.remaining > 0)
    && (b.mode.ChunkData? ==> b.line == [])
    && ((b.mode.ChunkSize? || b.mode.Trailers?) ==> |b.line| <= LINE_MAX)
  }

  const CHUNKED := Body(ChunkSize, 0, [])

  // ---- the size line ----

  predicate IsHex(c: char) { '0' <= c <= '9' || 'a' <= c <= 'f' || 'A' <= c <= 'F' }

  function Digit(c: char): (d: nat)
    requires IsHex(c)
    ensures d < 16
  {
    if '0' <= c <= '9' then c as int - '0' as int
    else if 'a' <= c <= 'f' then c as int - 'a' as int + 10
    else c as int - 'A' as int + 10
  }

  predicate AllHex(s: Bytes) { forall i | 0 <= i < |s| :: IsHex(s[i]) }

  function HexValue(s: Bytes): nat
    requires AllHex(s)
  {
    if s == [] then 0 else 16 * HexValue(s[..|s| - 1]) + Digit(s[|s| - 1])
  }

  function HexPrefix(s: Bytes): (n: nat)
    ensures n <= |s| && AllHex(s[..n])
    ensures n < |s| ==> !IsHex(s[n])
  {
    if s == [] || !IsHex(s[0]) then 0
    else
      var n := 1 + HexPrefix(s[1..]);
      assert forall i | 0 < i < n :: s[i] == s[1..][i - 1];
      n
  }

  predicate EndsDigits(c: char) { c == ';' || c == '\r' || c == ' ' || c == '\t' }

  /** The size a chunk-size line announces, or None for a line that is refused. */
  function SizeOf(line: Bytes): Option<nat> {
    var n := HexPrefix(line);
    if n == 0 || (n < |line| && !EndsDigits(line[n])) || HexValue(line[..n]) > SIZE_MAX then None
    else Some(HexValue(line[..n]))
  }

  // ---- meaning, byte by byte ----

  datatype Move = Next(b: Body, out: Bytes) | Finish(out: Bytes, ate: bool) | Fail

  function Step(b: Body, c: char): Move {
    match b.mode
    case Length =>
      if b.remaining == 0 then Finish([], false)
      else if b.remaining == 1 then Finish([c], true)
      else Next(b.(remaining := b.remaining - 1), [c])
    case ChunkSize =>
      if c != '\n' then Next(b.(line := b.line + [c]), [])
      else (match SizeOf(b.line)
            case None => Fail
            case Some(n) => Next(Body(if n > 0 then ChunkData else Trailers, n, []), []))
    case ChunkData =>
      if b.remaining <= 1 then Next(Body(ChunkCrlf, 0, b.line), [c])
      else Next(b.(remaining := b.remaining - 1), [c])
    case ChunkCrlf =>
      if b.line != [] then (if c == '\n' then Next(b.(mode := ChunkSize, line := []), []) else Fail)
      else if c == '\r' then Next(b.(line := ['\r']), [])
      else Fail
    case Trailers =>
      if c != '\n' then (if |b.line| + 1 > LINE_MAX then Fail else Next(b.(line := b.line + [c]), []))
      else if b.line == [] || b.line == ['\r'] then Finish([], true)
      else Next(b.(line := []), [])
    case UntilClose => Next(b, [c])
  }

  datatype Outcome = More(b: Body) | Complete(rest: Bytes) | Bad

  datatype Decoded = Decoded(payload: Bytes, outcome: Outcome)

  function Prepend(out: Bytes, d: Decoded): Decoded { Decoded(out + d.payload, d.outcome) }

  function Feed(b: Body, s: Bytes): Decoded
    decreases |s|
  {
    if s == [] then Decoded([], More(b))
    else
      match Step(b, s[0])
      case Next(b', out) => Prepend(out, Feed(b', s[1..]))
      case Finish(out, ate) => Decoded(out, Complete(if ate then s[1..] else s))
      case Fail => Decoded([], Bad)
  }

  /** What one read of the socket does: the limit on a size line is only checked while the
      line is still incomplete at the end of the read. */
  function Capped(d: Decoded): Decoded {
    if d.outcome.More? && d.outcome.b.mode.ChunkSize? && |d.outcome.b.line| > LINE_MAX
    then d.(outcome := Bad) else d
  }

  function Read(b: Body, s: Bytes): Decoded { Capped(Feed(b, s)) }

  /** Any number of reads, one after the other. */
  function Reads(b: Body, ps: seq<Bytes>): Decoded
    decreases |ps|
  {
    if ps == [] then Decoded([], More(b))
    else
      var d := Read(b, ps[0]);
      match d.outcome
      case More(b') => Prepend(d.payload, Reads(b', ps[1..]))
      case Complete(rest) => Decoded(d.payload, Complete(rest + Concat(ps[1..])))
      case Bad => d
  }

  // ---- feeding is a homomorphism ----

  function Continue(d: Decoded, s: Bytes): Decoded {
    match d.outcome
    case More(b) => Prepend(d.payload, Feed(b, s))
    case Complete(rest) => Decoded(d.payload, Complete(rest + s))
    case Bad => d
  }

  lemma {:induction false} FeedConcat(b: Body, x: Bytes, y: Bytes)
    ensures Feed(b, x + y) == Continue(Feed(b, x), y)
    decreases |x|
  {
    if x == [] {
      assert x + y == y;
      assert [] + Feed(b, y).payload == Feed(b, y).payload;
    } else {
      assert (x + y)[0] == x[0] && (x + y)[1..] == x[1..] + y;
      match Step(b, x[0]) {
        case Next(b', out) =>
          FeedConcat(b', x[1..], y);
          var d := Feed(b', x[1..]);
          if d.outcome.More? {
            assert out + (d.payload + Feed(d.outcome.b, y).payload) == (out + d.payload) + Feed(d.outcome.b, y).payload;
          }
        case Finish(_, _) =>
        case Fail =>
      }
    }
  }

  // ---- split independence, and exactly when it holds ----

  /** Along the whole stream no chunk-size line grows past LINE_MAX bytes. */
  predicate ShortLines(b: Body, s: Bytes)
    decreases |s|
  {
    && (b.mode.ChunkSize? ==> |b.line| <= LINE_MAX)
    && (s != [] && Step(b, s[0]).Next? ==> ShortLines(Step(b, s[0]).b, s[1..]))
  }

  lemma {:induction false} ShortLinesConcat(b: Body, x: Bytes, y: Bytes)
    ensures ShortLines(b, x + y) <==>
      ShortLines(b, x) && (Feed(b, x).outcome.More? ==> ShortLines(Feed(b, x).outcome.b, y))
    decreases |x|
  {
    if x == [] {
      assert x + y == y;
    } else {
      assert (x + y)[0] == x[0] && (x + y)[1..] == x[1..] + y;
      if Step(b, x[0]).Next? { ShortLinesConcat(Step(b, x[0]).b, x[1..], y); }
    }
  }

  lemma {:induction false} ShortLinesEnd(b: Body, s: Bytes)
    requires ShortLines(b, s)
    ensures Capped(Feed(b, s)) == Feed(b, s)
    decreases |s|
  {
    if s != [] && Step(b, s[0]).Next? { ShortLinesEnd(Step(b, s[0]).b, s[1..]); }
  }

  /** However a stream with short size lines is cut into reads, the outcome is the same. */
  lemma {:induction false} SplitIndependent(b: Body, ps: seq<Bytes>)
    requires ShortLines(b, Concat(ps))
    ensures Reads(b, ps) == Feed(b, Concat(ps))
    decreases |ps|
  {
    if ps != [] {
      var rest := Concat(ps[1..]);
      ShortLinesConcat(b, ps[0], rest);
      ShortLinesEnd(b, ps[0]);
      FeedConcat(b, ps[0], rest);
      var d := Feed(b, ps[0]);
      if d.outcome.More? { SplitIndependent(d.outcome.b, ps[1..]); }
    }
  }

  /** A long size line: some prefix ends inside it, past the limit. */
  lemma {:induction false} LongLinePrefix(b: Body, s: Bytes) returns (k: nat)
    requires !ShortLines(b, s)
    ensures k <= |s| && Read(b, s[..k]).outcome.Bad? && Feed(b, s[..k]).outcome.More?
    decreases |s|
  {
    if b.mode.ChunkSize? && |b.line| > LINE_MAX {
      k := 0;
    } else {
      var k' := LongLinePrefix(Step(b, s[0]).b, s[1..]);
      k := k' + 1;
      assert s[..k][0] == s[0] && s[..k][1..] == s[1..][..k'];
    }
  }

  lemma {:induction false} TwoReads(b: Body, x: Bytes, y: Bytes)
    ensures Concat([x, y]) == x + y
    ensures Read(b, x).outcome.Bad? ==> Reads(b, [x, y]).outcome.Bad?
    ensures Read(b, x) == Reads(b, [x])
  {
    assert [x, y][1..] == [y] && [y][1..] == [];
    assert Concat([y]) == y + [] == y;
    assert [x][1..] == [];
    var d := Read(b, x);
    assert d.payload + [] == d.payload;
    if d.outcome.Complete? { assert d.outcome.rest + [] == d.outcome.rest; }
  }

  /** For a stream that one read accepts, every cut agrees with it if and only if no chunk-size
      line is longer than LINE_MAX. */
  lemma SplitIndependentIff(b: Body, s: Bytes)
    requires !Read(b, s).outcome.Bad?
    ensures ShortLines(b, s) <==> forall ps | Concat(ps) == s :: Reads(b, ps) == Read(b, s)
  {
    if ShortLines(b, s) {
      forall ps | Concat(ps) == s ensures Reads(b, ps) == Read(b, s) {
        SplitIndependent(b, ps);
        ShortLinesEnd(b, s);
      }
    } else {
      var k := LongLinePrefix(b, s);
      TwoReads(b, s[..k], s[k..]);
      assert s[..k] + s[k..] == s;
      assert Concat([s[..k], s[k..]]) == s;
    }
  }

  // ---- decoding undoes encoding ----

  /** A chunk with the digits chosen for its size and an optional extension. */
  datatype Chunk = Chunk(data: Bytes, digits: Bytes, ext: Bytes)

  /** The zero chunk has its own digits and extension; trailers follow it. */
  datatype Message = Message(chunks: seq<Chunk>, zero: Bytes, ext: Bytes, trailers: seq<Bytes>)

  predicate ValidSize(digits: Bytes, ext: Bytes, size: nat) {
    && digits != [] && AllHex(digits) && HexValue(digits) == size <= SIZE_MAX
    && (ext == [] || EndsDigits(ext[0])) && '\n' !in ext
    && |digits| + |ext| + 1 <= LINE_MAX
  }

  predicate ValidChunk(c: Chunk) { c.data != [] && ValidSize(c.digits, c.ext, |c.data|) }

  predicate ValidTrailer(t: Bytes) { t != [] && '\n' !in t && |t| + 1 <= LINE_MAX }

  predicate ValidMessage(m: Message) {
    && (forall i | 0 <= i < |m.chunks| :: ValidChunk(m.chunks[i]))
    && ValidSize(m.zero, m.ext, 0)
    && (forall i | 0 <= i < |m.trailers| :: ValidTrailer(m.trailers[i]))
  }

  function SizeLine(digits: Bytes, ext: Bytes): Bytes { digits + ext + "\r" }

  function EncodeChunk(c: Chunk): Bytes { SizeLine(c.digits, c.ext) + "\n" + c.data + "\r\n" }

  function EncodeChunks(cs: seq<Chunk>): Bytes {
    if cs == [] then [] else EncodeChunk(cs[0]) + EncodeChunks(cs[1..])
  }

  function EncodeTrailers(ts: seq<Bytes>): Bytes {
    if ts == [] then "\r\n" else ts[0] + "\r" + "\n" + EncodeTrailers(ts[1..])
  }

  function Encode(m: Message): Bytes {
    EncodeChunks(m.chunks) + (SizeLine(m.zero, m.ext) + "\n" + EncodeTrailers(m.trailers))
  }

  function Payload(cs: seq<Chunk>): Bytes {
    if cs == [] then [] else cs[0].data + Payload(cs[1..])
  }

  lemma {:induction false} HexPrefixOf(digits: Bytes, tail: Bytes)
    requires AllHex(digits) && (tail == [] || !IsHex(tail[0]))
    ensures HexPrefix(digits + tail) == |digits|
    decreases |digits|
  {
    if digits == [] {
      assert digits + tail == tail;
    } else {
      assert (digits + tail)[1..] == digits[1..] + tail;
      HexPrefixOf(digits[1..], tail);
    }
  }

  lemma SizeLineOf(digits: Bytes, ext: Bytes, size: nat)
    requires ValidSize(digits, ext, size)
    ensures SizeOf(SizeLine(digits, ext)) == Some(size)
    ensures '\n' !in SizeLine(digits, ext)
  {
    var line := SizeLine(digits, ext);
    assert line == digits + (ext + "\r");
    if ext == [] { assert ext + "\r" == "\r"; } else { assert (ext + "\r")[0] == ext[0]; }
    assert EndsDigits((ext + "\r")[0]);
    HexPrefixOf(digits, ext + "\r");
    assert line[..|digits|] == digits;
    forall i | 0 <= i < |line| ensures line[i] != '\n' {
      if i < |digits| { assert IsHex(digits[i]); }
      else if i < |digits| + |ext| { assert line[i] == ext[i - |digits|]; }
    }
  }

  /** A run without '\n' is appended to a size line. */
  lemma {:induction false} SizeRun(b: Body, s: Bytes, n: nat)
    requires b.mode.ChunkSize? && n <= |s| && '\n' !in s[..n]
    ensures Feed(b, s) == Feed(b.(line := b.line + s[..n]), s[n..])
    ensures |b.line| + n <= LINE_MAX ==>
      (ShortLines(b, s) <==> ShortLines(b.(line := b.line + s[..n]), s[n..]))
    decreases n
  {
    if n == 0 {
      assert b.line + s[..0] == b.line && s[0..] == s;
    } else {
      assert s[0] in s[..n];
      var b' := b.(line := b.line + [s[0]]);
      assert s[1..][..n - 1] == s[..n][1..];
      SizeRun(b', s[1..], n - 1);
      assert b'.line + s[1..][..n - 1] == b.line + s[..n];
      assert s[1..][n - 1..] == s[n..];
      assert [] + Feed(b', s[1..]).payload == Feed(b', s[1..]).payload;
    }
  }

  /** A size line that ends at n is judged as a whole. */
  lemma SizeLineEnds(b: Body, s: Bytes, n: nat)
    requires b.mode.ChunkSize? && n < |s| && '\n' !in s[..n] && s[n] == '\n'
    ensures match SizeOf(b.line + s[..n])
      case None => Feed(b, s) == Decoded([], Bad)
      case Some(k) => Feed(b, s) == Feed(Body(if k > 0 then ChunkData else Trailers, k, []), s[n + 1..])
  {
    SizeRun(b, s, n);
    var c := b.(line := b.line + s[..n]);
    assert s[n..][0] == '\n' && s[n..][1..] == s[n + 1..];
    match SizeOf(c.line) {
      case None =>
      case Some(k) =>
        var d := Feed(Body(if k > 0 then ChunkData else Trailers, k, []), s[n + 1..]);
        assert [] + d.payload == d.payload;
    }
  }

  /** A run without '\n' is appended to a trailer line, or overflows it. */
  lemma {:induction false} TrailerRun(b: Body, s: Bytes, n: nat)
    requires b.mode.Trailers? && n <= |s| && '\n' !in s[..n]
    requires |b.line| <= LINE_MAX
    ensures |b.line| + n <= LINE_MAX ==> Feed(b, s) == Feed(b.(line := b.line + s[..n]), s[n..])
    ensures |b.line| + n <= LINE_MAX ==> (ShortLines(b, s) <==> ShortLines(b.(line := b.line + s[..n]), s[n..]))
    ensures |b.line| + n > LINE_MAX ==> Feed(b, s) == Decoded([], Bad)
    decreases n
  {
    if n == 0 {
      assert b.line + s[..0] == b.line && s[0..] == s;
    } else {
      assert s[0] in s[..n];
      if |b.line| + 1 <= LINE_MAX {
        var b' := b.(line := b.line + [s[0]]);
        assert s[1..][..n - 1] == s[..n][1..];
        TrailerRun(b', s[1..], n - 1);
        assert b'.line + s[1..][..n - 1] == b.line + s[..n];
        assert s[1..][n - 1..] == s[n..];
        assert [] + Feed(b', s[1..]).payload == Feed(b', s[1..]).payload;
      }
    }
  }

  /** A run inside a chunk is delivered as it is. */
  lemma {:induction false} DataRun(b: Body, s: Bytes, n: nat)
    requires b.mode.ChunkData? && b.line == [] && n <= |s| && 0 < n <= b.remaining
    ensures var b' := if n < b.remaining then b.(remaining := b.remaining - n) else Body(ChunkCrlf, 0, []);
      && Feed(b, s) == Prepend(s[..n], Feed(b', s[n..]))
      && (ShortLines(b, s) <==> ShortLines(b', s[n..]))
    decreases n
  {
    if n == 1 {
      assert s[..1] == [s[0]];
    } else {
      var b' := b.(remaining := b.remaining - 1);
      DataRun(b', s[1..], n - 1);
      assert s[1..][n - 1..] == s[n..];
      assert [s[0]] + s[1..][..n - 1] == s[..n];
      var b'' := if n < b.remaining then b.(remaining := b.remaining - n) else Body(ChunkCrlf, 0, []);
      Regroup(s, n, Feed(b'', s[n..]).payload);
    }
  }

  /** A run inside a counted body is delivered as it is. */
  lemma {:induction false} LengthRun(b: Body, s: Bytes, n: nat)
    requires b.mode.Length? && n <= |s| && 0 < n < b.remaining
    ensures Feed(b, s) == Prepend(s[..n], Feed(b.(remaining := b.remaining - n), s[n..]))
    decreases n
  {
    if n == 1 {
      assert s[..1] == [s[0]];
    } else {
      var b' := b.(remaining := b.remaining - 1);
      LengthRun(b', s[1..], n - 1);
      assert s[1..][n - 1..] == s[n..];
      Regroup(s, n, Feed(b.(remaining := b.remaining - n), s[n..]).payload);
    }
  }

  /** The last counted byte completes the body. */
  lemma {:induction false} LengthEnds(b: Body, s: Bytes)
    requires b.mode.Length? && 0 < b.remaining <= |s|
    ensures Feed(b, s) == Decoded(s[..b.remaining], Complete(s[b.remaining..]))
    decreases b.remaining
  {
    var n := b.remaining;
    if n == 1 {
      assert s[..1] == [s[0]];
    } else {
      LengthEnds(b.(remaining := n - 1), s[1..]);
      assert s[1..][n - 1..] == s[n..];
      assert [s[0]] + s[1..][..n - 1] == s[..n];
    }
  }

  lemma Regroup(s: Bytes, n: nat, t: Bytes)
    requires 0 < n <= |s|
    ensures [s[0]] + (s[1..][..n - 1] + t) == s[..n] + t
  {
  }

  lemma {:induction false} CloseRun(b: Body, s: Bytes)
    requires b.mode.UntilClose?
    ensures Feed(b, s) == Decoded(s, More(b))
    decreases |s|
  {
    if s != [] {
      CloseRun(b, s[1..]);
      assert [s[0]] + s[1..] == s;
    }
  }

  /** A complete size line moves on to the chunk it announces, or to the trailers. */
  lemma SizeLineFed(digits: Bytes, ext: Bytes, size: nat, rest: Bytes)
    requires ValidSize(digits, ext, size)
    ensures var b := Body(if size > 0 then ChunkData else Trailers, size, []);
      && Feed(CHUNKED, SizeLine(digits, ext) + "\n" + rest) == Feed(b, rest)
      && (ShortLines(CHUNKED, SizeLine(digits, ext) + "\n" + rest) <==> ShortLines(b, rest))
  {
    var line := SizeLine(digits, ext);
    var s := line + "\n" + rest;
    SizeLineOf(digits, ext, size);
    assert s[..|line|] == line;
    SizeRun(CHUNKED, s, |line|);
    assert [] + line == line;
    var t := s[|line|..];
    assert t[0] == '\n' && t[1..] == rest;
    var b := Body(if size > 0 then ChunkData else Trailers, size, []);
    assert [] + Feed(b, rest).payload == Feed(b, rest).payload;
  }

  lemma ChunkFed(c: Chunk, rest: Bytes)
    requires ValidChunk(c)
    ensures Feed(CHUNKED, EncodeChunk(c) + rest) == Prepend(c.data, Feed(CHUNKED, rest))
    ensures ShortLines(CHUNKED, EncodeChunk(c) + rest) <==> ShortLines(CHUNKED, rest)
  {
    var tail := c.data + "\r\n" + rest;
    assert EncodeChunk(c) + rest == SizeLine(c.digits, c.ext) + "\n" + tail;
    SizeLineFed(c.digits, c.ext, |c.data|, tail);
    var b := Body(ChunkData, |c.data|, []);
    DataRun(b, tail, |c.data|);
    assert tail[..|c.data|] == c.data;
    CrlfFed(tail[|c.data|..], rest);
  }

  lemma CrlfFed(s: Bytes, rest: Bytes)
    requires s == "\r\n" + rest
    ensures Feed(Body(ChunkCrlf, 0, []), s) == Feed(CHUNKED, rest)
    ensures ShortLines(Body(ChunkCrlf, 0, []), s) <==> ShortLines(CHUNKED, rest)
  {
    var held := Body(ChunkCrlf, 0, ['\r']);
    assert s[0] == '\r' && s[1..][0] == '\n' && s[1..][1..] == rest;
    assert [] + Feed(CHUNKED, rest).payload == Feed(CHUNKED, rest).payload;
    assert Step(held, '\n') == Next(CHUNKED, []);
    assert Feed(held, s[1..]) == Prepend([], Feed(CHUNKED, rest)) == Feed(CHUNKED, rest);
    assert Feed(Body(ChunkCrlf, 0, []), s) == Prepend([], Feed(held, s[1..]));
  }

  lemma {:induction false} ChunksFed(cs: seq<Chunk>, rest: Bytes)
    requires forall i | 0 <= i < |cs| :: ValidChunk(cs[i])
    ensures Feed(CHUNKED, EncodeChunks(cs) + rest) == Prepend(Payload(cs), Feed(CHUNKED, rest))
    ensures ShortLines(CHUNKED, EncodeChunks(cs) + rest) <==> ShortLines(CHUNKED, rest)
    decreases |cs|
  {
    var t := Feed(CHUNKED, rest);
    if cs == [] {
      assert EncodeChunks(cs) + rest == rest;
      assert [] + t.payload == t.payload;
    } else {
      assert EncodeChunks(cs) + rest == EncodeChunk(cs[0]) + (EncodeChunks(cs[1..]) + rest);
      ChunkFed(cs[0], EncodeChunks(cs[1..]) + rest);
      ChunksFed(cs[1..], rest);
      assert cs[0].data + (Payload(cs[1..]) + t.payload) == Payload(cs) + t.payload;
    }
  }

  const TRAILING := Body(Trailers, 0, [])

  lemma {:induction false} TrailersFed(ts: seq<Bytes>, rest: Bytes)
    requires forall i | 0 <= i < |ts| :: ValidTrailer(ts[i])
    ensures Feed(TRAILING, EncodeTrailers(ts) + rest) == Decoded([], Complete(rest))
    ensures ShortLines(TRAILING, EncodeTrailers(ts) + rest)
    decreases |ts|
  {
    var s := EncodeTrailers(ts) + rest;
    if ts == [] {
      BlankFed(s, "\r", rest);
    } else {
      var line := ts[0] + "\r";
      var tail := EncodeTrailers(ts[1..]) + rest;
      assert s == line + "\n" + tail;
      LineFed(s, line, tail);
      TrailersFed(ts[1..], rest);
    }
  }

  lemma BlankFed(s: Bytes, line: Bytes, rest: Bytes)
    requires s == line + "\n" + rest && line == "\r"
    ensures Feed(TRAILING, s) == Decoded([], Complete(rest)) && ShortLines(TRAILING, s)
  {
    TrailerRun(TRAILING, s, 1);
    assert s[..1] == "\r" && [] + s[..1] == "\r";
    assert s[1..][0] == '\n' && s[1..][1..] == rest;
  }

  lemma LineFed(s: Bytes, line: Bytes, tail: Bytes)
    requires s == line + "\n" + tail && |line| >= 2 && |line| <= LINE_MAX && '\n' !in line
    ensures Feed(TRAILING, s) == Feed(TRAILING, tail)
    ensures ShortLines(TRAILING, s) <==> ShortLines(TRAILING, tail)
  {
    assert s[..|line|] == line;
    TrailerRun(TRAILING, s, |line|);
    assert [] + line == line;
    assert s[|line|..][0] == '\n' && s[|line|..][1..] == tail;
    assert [] + Feed(TRAILING, tail).payload == Feed(TRAILING, tail).payload;
  }

  /** The chunked decoder undoes the chunked encoding: exactly the payload, complete exactly at the
      blank line, everything behind it untouched. */
  lemma RoundTrip(m: Message, rest: Bytes)
    requires ValidMessage(m)
    ensures Feed(CHUNKED, Encode(m) + rest) == Decoded(Payload(m.chunks), Complete(rest))
    ensures ShortLines(CHUNKED, Encode(m) + rest)
  {
    var tail := EncodeTrailers(m.trailers) + rest;
    var last := SizeLine(m.zero, m.ext) + "\n" + tail;
    assert Encode(m) + rest == EncodeChunks(m.chunks) + last;
    ChunksFed(m.chunks, last);
    SizeLineFed(m.zero, m.ext, 0, tail);
    TrailersFed(m.trailers, rest);
    assert Payload(m.chunks) + [] == Payload(m.chunks);
  }

  /** ... whatever the reads are. */
  lemma RoundTripAnySplit(m: Message, rest: Bytes, ps: seq<Bytes>)
    requires ValidMessage(m) && Concat(ps) == Encode(m) + rest
    ensures Reads(CHUNKED, ps) == Decoded(Payload(m.chunks), Complete(rest))
  {
    RoundTrip(m, rest);
    SplitIndependent(CHUNKED, ps);
  }

  // ---- and nothing else is accepted ----

  /** A size line announces k exactly when it is hexadecimal digits of that value and then nothing, or an
      extension, a blank or the CR. */
  lemma SizeOfIff(line: Bytes, k: nat)
    ensures SizeOf(line) == Some(k) <==>
      exists n :: 0 < n <= |line| && AllHex(line[..n]) && HexValue(line[..n]) == k <= SIZE_MAX
        && (n == |line| || EndsDigits(line[n]))
  {
    var n := HexPrefix(line);
    forall i | 0 < i <= |line| && AllHex(line[..i]) && (i == |line| || EndsDigits(line[i])) ensures i == n {
      PrefixIs(line, i);
    }
  }

  lemma PrefixIs(line: Bytes, i: nat)
    requires i <= |line| && AllHex(line[..i]) && (i == |line| || EndsDigits(line[i]))
    ensures HexPrefix(line) == i
  {
    HexPrefixOf(line[..i], line[i..]);
    assert line == line[..i] + line[i..];
  }

  datatype Whole = Whole(payload: Bytes, rest: Bytes)

  /** Lines up to a blank one; what is behind it. */
  function TrailersByLine(s: Bytes): Option<Bytes>
    decreases |s|
  {
    var n := IndexOf(s, '\n');
    if n == |s| || n > LINE_MAX then None
    else if s[..n] == [] || s[..n] == "\r" then Some(s[n + 1..])
    else TrailersByLine(s[n + 1..])
  }

  /** A size line, so many bytes and a CRLF, again and again; a size of zero, and the trailers. */
  function ChunksByLine(s: Bytes): Option<Whole>
    decreases |s|, 0
  {
    var n := IndexOf(s, '\n');
    if n == |s| || SizeOf(s[..n]).None? then None else BehindSize(s[n + 1..], SizeOf(s[..n]).value)
  }

  function BehindSize(t: Bytes, k: nat): Option<Whole>
    decreases |t|, 1
  {
    if k == 0 then Trailed(TrailersByLine(t))
    else if |t| < k + 2 || t[k] != '\r' || t[k + 1] != '\n' then None
    else InFront(t[..k], ChunksByLine(t[k + 2..]))
  }

  function InFront(data: Bytes, w: Option<Whole>): Option<Whole> {
    if w.None? then None else Some(Whole(data + w.value.payload, w.value.rest))
  }

  /** The decoder is through, with exactly this. */
  predicate Through(d: Decoded, w: Option<Whole>) {
    if d.outcome.Complete? then w == Some(Whole(d.payload, d.outcome.rest)) else w.None?
  }

  function Trailed(rest: Option<Bytes>): Option<Whole> { if rest.None? then None else Some(Whole([], rest.value)) }

  lemma {:induction false} TrailersIff(s: Bytes)
    ensures Through(Feed(TRAILING, s), Trailed(TrailersByLine(s)))
    decreases |s|
  {
    var n := IndexOf(s, '\n');
    TrailerRun(TRAILING, s, n);
    if n <= LINE_MAX {
      var b := TRAILING.(line := [] + s[..n]);
      assert [] + s[..n] == s[..n];
      if n < |s| {
        assert s[n..][0] == '\n' && s[n..][1..] == s[n + 1..];
        TrailersIff(s[n + 1..]);
        var d := Feed(TRAILING, s[n + 1..]);
        assert [] + d.payload == d.payload;
      } else {
        assert s[n..] == [];
      }
    }
  }

  lemma CrlfIff(u: Bytes)
    ensures if |u| >= 2 && u[0] == '\r' && u[1] == '\n' then Feed(Body(ChunkCrlf, 0, []), u) == Feed(CHUNKED, u[2..])
      else !Feed(Body(ChunkCrlf, 0, []), u).outcome.Complete?
  {
    var held := Body(ChunkCrlf, 0, ['\r']);
    if |u| >= 2 && u[0] == '\r' && u[1] == '\n' {
      assert u == "\r\n" + u[2..];
      CrlfFed(u, u[2..]);
    } else if |u| >= 2 {
      assert u[1..][0] == u[1];
    }
  }

  /** What follows a size line of k > 0. */
  lemma DataIff(t: Bytes, k: nat)
    requires k > 0
    ensures var d := Feed(Body(ChunkData, k, []), t);
      if |t| >= k + 2 && t[k] == '\r' && t[k + 1] == '\n' then d == Prepend(t[..k], Feed(CHUNKED, t[k + 2..]))
      else !d.outcome.Complete?
  {
    var b := Body(ChunkData, k, []);
    if 0 < |t| < k {
      DataRun(b, t, |t|);
      assert t[|t|..] == [];
    } else if |t| >= k {
      DataRun(b, t, k);
      CrlfIff(t[k..]);
      if |t| >= k + 2 { assert t[k..][2..] == t[k + 2..]; }
    }
  }

  /** The decoder accepts exactly the chunked bodies, with exactly their payload and exactly what follows. */
  lemma {:induction false} AcceptsIff(s: Bytes)
    ensures Through(Feed(CHUNKED, s), ChunksByLine(s))
    decreases |s|, 1
  {
    var n := IndexOf(s, '\n');
    if n == |s| {
      assert s[..n] == s;
      SizeRun(CHUNKED, s, n);
      assert s[n..] == [];
    } else {
      var t := s[n + 1..];
      SizeLineEnds(CHUNKED, s, n);
      assert [] + s[..n] == s[..n];
      if SizeOf(s[..n]).Some? { BehindIff(t, SizeOf(s[..n]).value); }
    }
  }

  lemma {:induction false} BehindIff(t: Bytes, k: nat)
    ensures Through(Feed(Body(if k > 0 then ChunkData else Trailers, k, []), t), BehindSize(t, k))
    decreases |t|, 2
  {
    if k == 0 {
      TrailersIff(t);
    } else {
      DataIff(t, k);
      if |t| >= k + 2 {
        AcceptsIff(t[k + 2..]);
        ThroughMore(t[..k], Feed(CHUNKED, t[k + 2..]), ChunksByLine(t[k + 2..]));
      }
    }
  }

  lemma ThroughMore(data: Bytes, d: Decoded, w: Option<Whole>)
    requires Through(d, w)
    ensures Through(Prepend(data, d), InFront(data, w))
  {
  }

  /** A counted body of n bytes is exactly the next n bytes, whatever the reads are. */
  lemma LengthAnySplit(n: nat, ps: seq<Bytes>)
    requires 0 < n <= |Concat(ps)|
    ensures Reads(Body(Length, n, []), ps) == Decoded(Concat(ps)[..n], Complete(Concat(ps)[n..]))
  {
    LengthEnds(Body(Length, n, []), Concat(ps));
    NoSizeLines(Body(Length, n, []), Concat(ps));
    SplitIndependent(Body(Length, n, []), ps);
  }

  lemma {:induction false} NoSizeLines(b: Body, s: Bytes)
    requires b.mode.Length? || b.mode.UntilClose?
    ensures ShortLines(b, s)
    decreases |s|
  {
    if s != [] && Step(b, s[0]).Next? { NoSizeLines(Step(b, s[0]).b, s[1..]); }
  }

  /** Digits exist for every size, so every chunk can be encoded. */
  function HexOf(n: nat): (s: Bytes)
    ensures s != [] && AllHex(s) && HexValue(s) == n
  {
    var c := if n % 16 < 10 then (n % 16 + '0' as int) as char else (n % 16 - 10 + 'a' as int) as char;
    if n < 16 then
      assert [c][..0] == [];
      [c]
    else
      var s := HexOf(n / 16);
      assert (s + [c])[..|s + [c]| - 1] == s;
      s + [c]
  }

  // ---- the decoder itself ----

  /** Index of the first '\n' at or after `from`, or |s|. */
  method FindNewline(s: Bytes, from: nat) returns (i: nat)
    requires from <= |s|
    ensures from <= i <= |s| && '\n' !in s[from..i]
    ensures i < |s| ==> s[i] == '\n'
  {
    i := from;
    while i < |s| && s[i] != '\n'
      invariant from <= i <= |s| && '\n' !in s[from..i]
    {
      i := i + 1;
    }
  }

  lemma {:induction false} HexMonotone(s: Bytes, n: nat)
    requires AllHex(s) && n <= |s|
    ensures HexValue(s[..n]) <= HexValue(s)
    decreases |s|
  {
    if n == |s| {
      assert s[..n] == s;
    } else {
      assert s[..|s| - 1][..n] == s[..n];
      HexMonotone(s[..|s| - 1], n);
    }
  }

  /** Reads a size line digit by digit, refusing it before the value can wrap. */
  method ParseSize(line: Bytes) returns (size: Option<nat>)
    ensures size == SizeOf(line)
  {
    var value: nat, i: nat := 0, 0;
    ghost var n := HexPrefix(line);
    while i < |line| && IsHex(line[i])
      invariant i <= n && value == HexValue(line[..i]) && value <= SIZE_MAX
    {
      assert i < n;
      assert line[..i + 1][..i] == line[..i];
      if value > SIZE_MAX / 16 {
        assert HexValue(line[..i + 1]) > SIZE_MAX;
        assert line[..n][..i + 1] == line[..i + 1];
        HexMonotone(line[..n], i + 1);
        return None;
      }
      value := value * 16 + Digit(line[i]);
      i := i + 1;
    }
    assert i == n;
    if i == 0 || (i < |line| && !EndsDigits(line[i])) {
      return None;
    }
    return Some(value);
  }

  /** What one turn of the decoder's loop achieved: the unread bytes were `rest` and are `rest'` now,
      `out` went to the client.  rc is 2 when the loop goes on. */
  predicate TurnedFrom(d: Decoded, rc: int, out: Bytes, b': Body, rest': Bytes, d': Decoded) {
    if rc == 2 then Valid(b') && d == Prepend(out, d')
    else if rc == 1 then d == Decoded(out, Complete(rest'))
    else if rc == 0 then Valid(b') && rest' == [] && d == Decoded(out, More(b'))
    else rc == -1 && Capped(d) == Decoded(out, Bad)
  }

  ghost predicate Turned(b: Body, rest: Bytes, rc: int, out: Bytes, b': Body, rest': Bytes) {
    forall n: nat {:trigger Look(n)} :: Look(n) ==> TurnedFrom(Feed(b, rest), rc, out, b', rest', Feed(b', rest'))
  }

  lemma LengthTurned(b: Body, buf: Bytes, pos: nat, take: nat)
    requires b.mode.Length? && Valid(b) && pos < |buf|
    requires take == if b.remaining < |buf| - pos then b.remaining else |buf| - pos
    ensures Turned(b, buf[pos..], if take == b.remaining then 1 else 0, buf[pos..pos + take],
                   b.(remaining := b.remaining - take), buf[pos + take..])
  {
    var rest := buf[pos..];
    assert rest[..take] == buf[pos..pos + take] && rest[take..] == buf[pos + take..];
    if 0 < take < b.remaining { LengthRun(b, rest, take); } else if take > 0 { LengthEnds(b, rest); }
    assert rest[..take] + [] == rest[..take];
  }

  /** A size line that goes on past the end of the read. */
  lemma SizeLineHeld(b: Body, buf: Bytes, pos: nat)
    requires b.mode.ChunkSize? && Valid(b) && pos < |buf| && '\n' !in buf[pos..]
    ensures var b' := b.(line := b.line + buf[pos..]);
      Turned(b, buf[pos..], if |b'.line| > LINE_MAX then -1 else 0, [], b', [])
  {
    var rest := buf[pos..];
    assert rest[..|rest|] == rest && rest[|rest|..] == [];
    SizeRun(b, rest, |rest|);
  }

  /** The turn that ends a size line: refused, or on to the chunk or the trailers. */
  lemma SizeLineTurned(b: Body, buf: Bytes, pos: nat, nl: nat)
    requires b.mode.ChunkSize? && pos <= nl < |buf| && '\n' !in buf[pos..nl] && buf[nl] == '\n'
    ensures match SizeOf(b.line + buf[pos..nl])
      case None => Turned(b, buf[pos..], -1, [], b, buf[pos..])
      case Some(k) => Turned(b, buf[pos..], 2, [], Body(if k > 0 then ChunkData else Trailers, k, []), buf[nl + 1..])
  {
    var rest := buf[pos..];
    assert rest[..nl - pos] == buf[pos..nl] && rest[nl - pos + 1..] == buf[nl + 1..];
    SizeLineEnds(b, rest, nl - pos);
    match SizeOf(b.line + buf[pos..nl]) {
      case None =>
      case Some(k) =>
        var d := Feed(Body(if k > 0 then ChunkData else Trailers, k, []), buf[nl + 1..]);
        assert [] + d.payload == d.payload;
    }
  }

  lemma DataTurned(b: Body, buf: Bytes, pos: nat, take: nat)
    requires b.mode.ChunkData? && Valid(b) && pos < |buf|
    requires take == if b.remaining < |buf| - pos then b.remaining else |buf| - pos
    ensures var b' := if take < b.remaining then b.(remaining := b.remaining - take) else Body(ChunkCrlf, 0, []);
      Turned(b, buf[pos..], if take < b.remaining then 0 else 2, buf[pos..pos + take], b', buf[pos + take..])
  {
    var rest := buf[pos..];
    assert rest[..take] == buf[pos..pos + take] && rest[take..] == buf[pos + take..];
    DataRun(b, rest, take);
    assert rest[..take] + [] == rest[..take];
  }

  /** The line feed after a held carriage return. */
  lemma LineFeedTurned(b: Body, buf: Bytes, pos: nat)
    requires b.mode.ChunkCrlf? && b.line != [] && Valid(b) && pos < |buf|
    ensures if buf[pos] == '\n' then Turned(b, buf[pos..], 2, [], b.(mode := ChunkSize, line := []), buf[pos + 1..])
            else Turned(b, buf[pos..], -1, [], b.(line := []), buf[pos..])
  {
    assert buf[pos..][0] == buf[pos] && buf[pos..][1..] == buf[pos + 1..];
  }

  /** The last byte of the read, after a chunk. */
  lemma ReturnTurned(b: Body, buf: Bytes, pos: nat)
    requires b.mode.ChunkCrlf? && b.line == [] && Valid(b) && pos + 1 == |buf|
    ensures if buf[pos] == '\r' then Turned(b, buf[pos..], 0, [], b.(line := ['\r']), buf[pos + 1..])
            else Turned(b, buf[pos..], -1, [], b, buf[pos..])
  {
    assert buf[pos..] == [buf[pos]] && buf[pos..][1..] == [] == buf[pos + 1..];
  }

  /** Both bytes after a chunk at once. */
  lemma CrlfTurned(b: Body, buf: Bytes, pos: nat)
    requires b.mode.ChunkCrlf? && b.line == [] && Valid(b) && pos + 1 < |buf|
    ensures if buf[pos] == '\r' && buf[pos + 1] == '\n'
            then Turned(b, buf[pos..], 2, [], b.(mode := ChunkSize), buf[pos + 2..])
            else Turned(b, buf[pos..], -1, [], b, buf[pos..])
  {
    var rest, held := buf[pos..], b.(line := ['\r']);
    assert rest[0] == buf[pos] && rest[1..][0] == buf[pos + 1] && rest[1..][1..] == buf[pos + 2..];
    if buf[pos] == '\r' {
      assert Feed(b, rest) == Prepend([], Feed(held, rest[1..]));
      if buf[pos + 1] == '\n' {
        assert Feed(held, rest[1..]) == Prepend([], Feed(b.(mode := ChunkSize), buf[pos + 2..]));
      }
    }
  }

  /** A trailer line that goes on past the end of the read. */
  lemma TrailerHeld(b: Body, buf: Bytes, pos: nat)
    requires b.mode.Trailers? && Valid(b) && pos <= |buf| && '\n' !in buf[pos..]
    ensures var b' := b.(line := b.line + buf[pos..]);
      Turned(b, buf[pos..], if |b'.line| > LINE_MAX then -1 else 0, [], b', [])
  {
    var rest := buf[pos..];
    assert rest[..|rest|] == rest && rest[|rest|..] == [];
    TrailerRun(b, rest, |rest|);
  }

  /** A trailer line that ends at n: the empty one completes the response, another is dropped. */
  lemma TrailerEnds(b: Body, s: Bytes, n: nat)
    requires b.mode.Trailers? && |b.line| + n <= LINE_MAX && n < |s| && '\n' !in s[..n] && s[n] == '\n'
    ensures var line := b.line + s[..n];
      if line == [] || line == ['\r'] then Feed(b, s) == Decoded([], Complete(s[n + 1..]))
      else Feed(b, s) == Prepend([], Feed(b.(line := []), s[n + 1..]))
  {
    TrailerRun(b, s, n);
    assert s[n..][0] == '\n' && s[n..][1..] == s[n + 1..];
  }

  lemma LongTrailerTurned(b: Body, buf: Bytes, pos: nat, nl: nat)
    requires b.mode.Trailers? && Valid(b) && pos <= nl < |buf| && '\n' !in buf[pos..nl]
    requires |b.line| + nl - pos > LINE_MAX
    ensures Turned(b, buf[pos..], -1, [], b.(line := b.line + buf[pos..nl]), buf[nl + 1..])
  {
    assert buf[pos..][..nl - pos] == buf[pos..nl];
    TrailerRun(b, buf[pos..], nl - pos);
  }

  /** The turn that ends a trailer line of a legal length: the empty one, or one more. */
  lemma TrailerTurned(b: Body, buf: Bytes, pos: nat, nl: nat)
    requires b.mode.Trailers? && Valid(b) && pos <= nl < |buf| && '\n' !in buf[pos..nl] && buf[nl] == '\n'
    requires |b.line| + nl - pos <= LINE_MAX
    ensures var line := b.line + buf[pos..nl];
      if line == [] || line == ['\r'] then Turned(b, buf[pos..], 1, [], b.(line := line), buf[nl + 1..])
      else Turned(b, buf[pos..], 2, [], b.(line := []), buf[nl + 1..])
  {
    var rest := buf[pos..];
    assert rest[..nl - pos] == buf[pos..nl] && rest[nl - pos + 1..] == buf[nl + 1..];
    TrailerEnds(b, rest, nl - pos);
  }

  lemma CloseTurned(b: Body, buf: Bytes, pos: nat)
    requires b.mode.UntilClose? && Valid(b) && pos <= |buf|
    ensures Turned(b, buf[pos..], 0, buf[pos..], b, [])
  {
    CloseRun(b, buf[pos..]);
  }

  /** The parser state of one upstream connection and what it has handed to the client so far. */
  class Decoder {
    var mode: Mode
    var remaining: nat
    var line: Bytes
    var sent: Bytes

    function State(): Body
      reads this
    {
      Body(mode, remaining, line)
    }

    constructor (m: Mode, n: nat)
      ensures State() == Body(m, n, []) && sent == []
    {
      mode, remaining, line, sent := m, n, [], [];
    }

    method Deliver(buf: Bytes, pos: nat, take: nat)
      requires pos + take <= |buf|
      modifies `sent
      ensures sent == old(sent) + buf[pos..pos + take]
    {
      sent := sent + buf[pos..pos + take];
    }

    method TurnLength(buf: Bytes, pos: nat) returns (rc: int, next: nat, ghost out: Bytes)
      requires mode.Length? && Valid(State()) && pos < |buf|
      modifies this
      ensures pos <= next <= |buf| && sent == old(sent) + out && rc != 2
      ensures Turned(old(State()), buf[pos..], rc, out, State(), buf[next..])
    {
      var take := if remaining < |buf| - pos then remaining else |buf| - pos;
      LengthTurned(State(), buf, pos, take);
      next := pos + take;
      out := buf[pos..next];
      Deliver(buf, pos, take);
      remaining := remaining - take;
      rc := if remaining == 0 then 1 else 0;
    }

    method TurnSize(buf: Bytes, pos: nat) returns (rc: int, next: nat, ghost out: Bytes)
      requires mode.ChunkSize? && Valid(State()) && pos < |buf|
      modifies this
      ensures pos <= next <= |buf| && sent == old(sent) + out && (rc == 2 ==> pos < next)
      ensures Turned(old(State()), buf[pos..], rc, out, State(), buf[next..])
    {
      out := [];
      var nl := FindNewline(buf, pos);
      if nl < |buf| {
        rc, next := EndSizeLine(buf, pos, nl);
        return;
      }
      assert buf[pos..nl] == buf[pos..] && buf[nl..] == [];
      SizeLineHeld(State(), buf, pos);
      line := line + buf[pos..nl];
      rc, next := if |line| > LINE_MAX then -1 else 0, nl;
    }

    /** The size line ends at `nl`: judge it and go on to the chunk or the trailers. */
    method EndSizeLine(buf: Bytes, pos: nat, nl: nat) returns (rc: int, next: nat)
      requires mode.ChunkSize? && pos <= nl < |buf| && '\n' !in buf[pos..nl] && buf[nl] == '\n'
      modifies `mode, `remaining, `line
      ensures pos <= next <= |buf| && (rc == 2 ==> pos < next)
      ensures Turned(old(State()), buf[pos..], rc, [], State(), buf[next..])
    {
      SizeLineTurned(State(), buf, pos, nl);
      var size := ParseSize(line + buf[pos..nl]);
      if size.None? {
        return -1, pos;
      }
      mode := if size.value > 0 then ChunkData else Trailers;
      remaining := size.value;
      line := [];
      rc, next := 2, nl + 1;
    }

    method TurnData(buf: Bytes, pos: nat) returns (rc: int, next: nat, ghost out: Bytes)
      requires mode.ChunkData? && Valid(State()) && pos < |buf|
      modifies this
      ensures pos < next <= |buf| && sent == old(sent) + out
      ensures Turned(old(State()), buf[pos..], rc, out, State(), buf[next..])
    {
      var take := if remaining < |buf| - pos then remaining else |buf| - pos;
      DataTurned(State(), buf, pos, take);
      next := pos + take;
      out := buf[pos..next];
      Deliver(buf, pos, take);
      remaining := remaining - take;
      if remaining == 0 {
        mode := ChunkCrlf;
        rc := 2;
      } else {
        rc := 0;
      }
    }

    method TurnCrlf(buf: Bytes, pos: nat) returns (rc: int, next: nat, ghost out: Bytes)
      requires mode.ChunkCrlf? && Valid(State()) && pos < |buf|
      modifies this
      ensures pos <= next <= |buf| && sent == old(sent) + out && (rc == 2 ==> pos < next)
      ensures Turned(old(State()), buf[pos..], rc, out, State(), buf[next..])
    {
      out := [];
      if line != [] {
        LineFeedTurned(State(), buf, pos);
        line := [];
        if buf[pos] != '\n' {
          return -1, pos, [];
        }
        mode := ChunkSize;
        return 2, pos + 1, [];
      }
      if |buf| - pos < 2 {
        ReturnTurned(State(), buf, pos);
        if buf[pos] != '\r' {
          return -1, pos, [];
        }
        line := ['\r'];
        return 0, pos + 1, [];
      }
      CrlfTurned(State(), buf, pos);
      if buf[pos] != '\r' || buf[pos + 1] != '\n' {
        return -1, pos, [];
      }
      mode := ChunkSize;
      return 2, pos + 2, [];
    }

    method TurnTrailers(buf: Bytes, pos: nat) returns (rc: int, next: nat, ghost out: Bytes)
      requires mode.Trailers? && Valid(State()) && pos < |buf|
      modifies this
      ensures pos <= next <= |buf| && sent == old(sent) + out && (rc == 2 ==> pos < next)
      ensures Turned(old(State()), buf[pos..], rc, out, State(), buf[next..])
    {
      out := [];
      var nl := FindNewline(buf, pos);
      if nl < |buf| {
        rc, next := EndTrailer(buf, pos, nl);
        return;
      }
      assert buf[pos..nl] == buf[pos..] && buf[nl..] == [];
      TrailerHeld(State(), buf, pos);
      line := line + buf[pos..nl];
      rc, next := if |line| > LINE_MAX then -1 else 0, nl;
    }

    /** The trailer line ends at `nl`: an empty one completes the response. */
    method EndTrailer(buf: Bytes, pos: nat, nl: nat) returns (rc: int, next: nat)
      requires mode.Trailers? && Valid(State()) && pos <= nl < |buf| && '\n' !in buf[pos..nl] && buf[nl] == '\n'
      modifies `line
      ensures pos <= next <= |buf| && (rc == 2 ==> pos < next)
      ensures Turned(old(State()), buf[pos..], rc, [], State(), buf[next..])
    {
      ghost var b := State();
      line := line + buf[pos..nl];
      next := nl + 1;
      if |line| > LINE_MAX {
        LongTrailerTurned(b, buf, pos, nl);
        rc := -1;
        return;
      }
      TrailerTurned(b, buf, pos, nl);
      if line == [] || line == ['\r'] {
        rc := 1;
      } else {
        line := [];
        rc := 2;
      }
    }

    method TurnClose(buf: Bytes, pos: nat) returns (rc: int, next: nat, ghost out: Bytes)
      requires mode.UntilClose? && Valid(State()) && pos < |buf|
      modifies this
      ensures next == |buf| && sent == old(sent) + out && rc == 0
      ensures Turned(old(State()), buf[pos..], rc, out, State(), buf[next..])
    {
      CloseTurned(State(), buf, pos);
      out := buf[pos..];
      assert buf[pos..pos + (|buf| - pos)] == out && buf[|buf|..] == [];
      Deliver(buf, pos, |buf| - pos);
      rc, next := 0, |buf|;
    }

    method Turn(buf: Bytes, pos: nat) returns (rc: int, next: nat, ghost out: Bytes)
      requires Valid(State()) && pos < |buf|
      modifies this
      ensures pos <= next <= |buf| && sent == old(sent) + out && (rc == 2 ==> pos < next)
      ensures Turned(old(State()), buf[pos..], rc, out, State(), buf[next..])
    {
      match mode {
        case Length => rc, next, out := TurnLength(buf, pos);
        case ChunkSize => rc, next, out := TurnSize(buf, pos);
        case ChunkData => rc, next, out := TurnData(buf, pos);
        case ChunkCrlf => rc, next, out := TurnCrlf(buf, pos);
        case Trailers => rc, next, out := TurnTrailers(buf, pos);
        case UntilClose => rc, next, out := TurnClose(buf, pos);
      }
    }

    /** One read of the socket.  rc is 1 when the response completed at buf[pos], 0 when more bytes
        are needed, -1 on a framing violation. */
    method Receive(buf: Bytes) returns (rc: int, pos: nat)
      requires Valid(State())
      modifies this
      ensures pos <= |buf|
      ensures sent == old(sent) + Read(old(State()), buf).payload
      ensures Returned(Read(old(State()), buf).outcome, rc, State(), buf[pos..])
    {
      pos := 0;
      ghost var all: Bytes, b0 := [], State();
      ReadStarts(b0, buf);
      while pos < |buf|
        invariant pos <= |buf| && Valid(State())
        invariant sent == old(sent) + all
        invariant Reading(b0, buf, all, State(), pos)
      {
        ghost var b, p, out := State(), pos, [];
        rc, pos, out := Turn(buf, pos);
        TurnComposes(b0, buf, all, b, p, rc, out, State(), pos);
        all := all + out;
        if rc != 2 {
          return;
        }
      }
      ReadEnds(b0, buf, all, State(), pos);
      rc := 0;
    }
  }

  /** How the outcome of a read shows in the return code, the state and the unread bytes. */
  predicate Returned(o: Outcome, rc: int, b: Body, rest: Bytes) {
    match o
    case More(b') => rc == 0 && b == b' && Valid(b) && rest == []
    case Complete(rest') => rc == 1 && rest == rest'
    case Bad => rc == -1
  }

  /** Part of the way through a read: `all` was delivered, the state is b and buf[pos..] is unread. */
  ghost predicate Reading(b0: Body, buf: Bytes, all: Bytes, b: Body, pos: nat) {
    forall n: nat {:trigger Look(n)} :: Look(n) ==> pos <= |buf| && Feed(b0, buf) == Prepend(all, Feed(b, buf[pos..]))
  }

  lemma ReadStarts(b0: Body, buf: Bytes)
    ensures Reading(b0, buf, [], b0, 0)
  {
    assert buf[0..] == buf;
    assert [] + Feed(b0, buf).payload == Feed(b0, buf).payload;
  }

  lemma ReadEnds(b0: Body, buf: Bytes, all: Bytes, b: Body, pos: nat)
    requires Reading(b0, buf, all, b, pos) && pos == |buf| && Valid(b)
    ensures Read(b0, buf).payload == all && Returned(Read(b0, buf).outcome, 0, b, buf[pos..])
  {
    assert Look(0);
    assert buf[pos..] == [] && all + [] == all;
  }

  lemma TurnComposes(b0: Body, buf: Bytes, all: Bytes, b: Body, pos: nat, rc: int, out: Bytes, b': Body, next: nat)
    requires Reading(b0, buf, all, b, pos) && pos <= next <= |buf| && Turned(b, buf[pos..], rc, out, b', buf[next..])
    ensures rc == 2 ==> Valid(b') && Reading(b0, buf, all + out, b', next)
    ensures rc != 2 ==> Read(b0, buf).payload == all + out && Returned(Read(b0, buf).outcome, rc, b', buf[next..])
  {
    assert Look(0);
    var d' := Feed(b', buf[next..]);
    assert all + (out + d'.payload) == (all + out) + d'.payload;
  }
}
