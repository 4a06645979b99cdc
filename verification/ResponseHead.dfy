/**
 The head of an upstream HTTP/1.1 response: what its framing headers mean, which headers are
 forwarded to the client, and the two passes over the raw bytes that decide both.
 */
module ResponseHead {
  import opened Shared
  import opened BodyDecoder

  const NAME_MAX: nat := 1024     // longest header name that is forwarded

  // ---- bytes of one line ----

  predicate SameNoCase(a: Bytes, b: Bytes) {
    |a| == |b| && forall i | 0 <= i < |a| :: Lower(a[i]) == Lower(b[i])
  }

  predicate Blank(c: char) { c == ' ' || c == '\t' }

  function TrimLeft(s: Bytes): Bytes {
    if s != [] && Blank(s[0]) then TrimLeft(s[1..]) else s
  }

  function TrimRight(s: Bytes): Bytes {
    if s != [] && Blank(s[|s| - 1]) then TrimRight(s[..|s| - 1]) else s
  }

  datatype Header = Header(key: Bytes, value: Bytes)

  function Split(line: Bytes): Option<Header> {
    var i := IndexOf(line, ':');
    if i == |line| then None else Some(Header(line[..i], TrimRight(TrimLeft(line[i + 1..]))))
  }

  function StripCr(s: Bytes): Bytes {
    if s != [] && s[|s| - 1] == '\r' then s[..|s| - 1] else s
  }

  /** The lines of a head, each without its line end. */
  function Lines(s: Bytes): seq<Bytes>
    decreases |s|
  {
    if s == [] then []
    else
      var i := IndexOf(s, '\n');
      [StripCr(s[..i])] + Lines(if i < |s| then s[i + 1..] else [])
  }

  // ---- values ----

  /** A Content-Length value: digits only, at least one, and a size_t. */
  function LengthOf(v: Bytes): Option<nat> {
    if v == [] || !AllDigits(v) || Decimal(v) > SIZE_MAX then None else Some(Decimal(v))
  }

  predicate Separator(c: char) { c == ',' || Blank(c) }

  function RunLength(v: Bytes): (i: nat)
    ensures i <= |v| && (forall j | 0 <= j < i :: !Separator(v[j])) && (i < |v| ==> Separator(v[i]))
  {
    if v == [] || Separator(v[0]) then 0
    else
      var i := 1 + RunLength(v[1..]);
      assert forall j | 0 < j < i :: v[j] == v[1..][j - 1];
      i
  }

  /** Is `token` one of the values of a list header, the maximal runs without a separator? */
  predicate Has(v: Bytes, token: Bytes)
    decreases |v|
  {
    var i := RunLength(v);
    SameNoCase(v[..i], token) || (i < |v| && Has(v[i + 1..], token))
  }

  /** The number read from a status line, in size_t and then in int, as C computes it. */
  function CodeDigits(s: Bytes, value: nat): nat
    decreases |s|
  {
    if s == [] || !IsDigit(s[0]) then value
    else CodeDigits(s[1..], (value * 10 + (s[0] as int - '0' as int)) % (SIZE_MAX + 1))
  }

  function ToInt(v: nat): int {
    var w := v % 0x1_0000_0000;
    if w >= 0x8000_0000 then w - 0x1_0000_0000 else w
  }

  function StatusCode(line: Bytes): int {
    var sp := IndexOf(line, ' ');
    if sp == |line| then 200
    else
      var tail := line[sp + 1..];
      ToInt(CodeDigits(tail[..IndexOf(tail, ' ')], 0))
  }

  // ---- the two passes, as meaning ----

  datatype Framing = Framing(length: Option<nat>, chunked: bool, close: bool)

  predicate Named(h: Header, name: Bytes) { SameNoCase(h.key, name) }

  function Framed(f: Framing, line: Bytes): Option<Framing> {
    match Split(line)
    case None => Some(f)
    case Some(h) =>
      if Named(h, "Content-Length") then
        var n := LengthOf(h.value);
        if n.None? || (f.length.Some? && f.length != n) then None else Some(f.(length := n))
      else if Named(h, "Transfer-Encoding") then Some(f.(chunked := Has(h.value, "chunked")))
      else if Named(h, "Connection") then Some(f.(close := Has(h.value, "close")))
      else Some(f)
  }

  /** Pass 1 over the header lines; None when a Content-Length is malformed or conflicts. */
  function FramingOf(f: Framing, lines: seq<Bytes>): Option<Framing>
    decreases |lines|
  {
    if lines == [] then Some(f)
    else
      match Framed(f, lines[0])
      case None => None
      case Some(g) => FramingOf(g, lines[1..])
  }

  predicate HopByHop(key: Bytes) {
    || SameNoCase(key, "Connection")
    || SameNoCase(key, "Keep-Alive")
    || SameNoCase(key, "Transfer-Encoding")
    || SameNoCase(key, "Upgrade")
    || SameNoCase(key, "Trailer")
    || (|key| >= 6 && SameNoCase(key[..6], "Proxy-"))
  }

  /** What pass 2 forwards for one line, and whether a length has gone out by then. */
  function Forwarded(line: Bytes, chunked: bool, sent: bool): (seq<Header>, bool) {
    match Split(line)
    case None => ([], sent)
    case Some(h) =>
      if |h.key| > NAME_MAX then ([], sent)
      else
        var key := UpToNul(h.key);
        var isLength := SameNoCase(key, "Content-Length");
        if isLength && (chunked || sent) then ([], sent)
        else (if HopByHop(key) then [] else [Header(key, h.value)], sent || isLength)
  }

  function ForwardedAll(lines: seq<Bytes>, chunked: bool, sent: bool): seq<Header>
    decreases |lines|
  {
    if lines == [] then []
    else
      var (hs, sent') := Forwarded(lines[0], chunked, sent);
      hs + ForwardedAll(lines[1..], chunked, sent')
  }

  datatype Reply = Reply(code: int, headers: seq<Header>, noBody: bool, framing: Framing)

  datatype Judged = Invalid | Interim | Final(reply: Reply)

  const NO_FRAMING := Framing(None, false, false)

  predicate NoBody(code: int, headRequest: bool) {
    code < 200 || code == 204 || code == 304 || headRequest
  }

  function Tail(lines: seq<Bytes>): seq<Bytes> { if lines == [] then [] else lines[1..] }

  /** The verdict on one complete head. */
  function Judge(head: Bytes, headRequest: bool): Judged {
    var lines := Lines(head);
    var code := if lines == [] then 200 else StatusCode(lines[0]);
    match FramingOf(NO_FRAMING, Tail(lines))
    case None => Invalid
    case Some(f) =>
      if 100 <= code < 200 then Interim
      else Final(Reply(code, ForwardedAll(Tail(lines), f.chunked, false), NoBody(code, headRequest), f))
  }

  /** The body framing a final head selects. */
  function BodyOf(r: Reply): Body {
    if r.noBody then Body(Length, 0, [])
    else if r.framing.chunked then Body(ChunkSize, 0, [])
    else if r.framing.length.Some? then Body(Length, r.framing.length.value, [])
    else Body(UntilClose, 0, [])
  }

  // ---- what the verdict guarantees ----

  predicate IsLength(h: Header) { SameNoCase(h.key, "Content-Length") }

  function Lengths(hs: seq<Header>): (r: seq<Header>)
    ensures forall i | 0 <= i < |r| :: IsLength(r[i])
  {
    if hs == [] then [] else (if IsLength(hs[0]) then [hs[0]] else []) + Lengths(hs[1..])
  }

  lemma {:induction false} LengthsConcat(a: seq<Header>, b: seq<Header>)
    ensures Lengths(a + b) == Lengths(a) + Lengths(b)
    decreases |a|
  {
    if a == [] {
      assert a + b == b;
    } else {
      assert (a + b)[1..] == a[1..] + b;
      LengthsConcat(a[1..], b);
    }
  }

  lemma {:induction false} ForwardedLengths(lines: seq<Bytes>, chunked: bool, sent: bool)
    ensures |Lengths(ForwardedAll(lines, chunked, sent))| <= if chunked || sent then 0 else 1
    decreases |lines|
  {
    if lines != [] {
      var (hs, sent') := Forwarded(lines[0], chunked, sent);
      ForwardedLengths(lines[1..], chunked, sent');
      LengthsConcat(hs, ForwardedAll(lines[1..], chunked, sent'));
      assert |hs| <= 1;
      if |hs| == 1 { assert hs[1..] == []; }
    }
  }

  lemma {:induction false} ForwardedNotHopByHop(lines: seq<Bytes>, chunked: bool, sent: bool)
    ensures forall h | h in ForwardedAll(lines, chunked, sent) :: !HopByHop(h.key)
    decreases |lines|
  {
    if lines != [] {
      var (hs, sent') := Forwarded(lines[0], chunked, sent);
      ForwardedNotHopByHop(lines[1..], chunked, sent');
    }
  }

  /** Never a Content-Length beside chunked framing, never two, never a hop-by-hop header. */
  lemma ForwardingIsSafe(head: Bytes, headRequest: bool)
    requires Judge(head, headRequest).Final?
    ensures var r := Judge(head, headRequest).reply;
      && |Lengths(r.headers)| <= 1
      && (r.framing.chunked ==> Lengths(r.headers) == [])
      && (forall h | h in r.headers :: !HopByHop(h.key))
  {
    var r := Judge(head, headRequest).reply;
    ForwardedLengths(Tail(Lines(head)), r.framing.chunked, false);
    ForwardedNotHopByHop(Tail(Lines(head)), r.framing.chunked, false);
  }

  /** The Content-Length values of a list of lines, in order. */
  function LengthValues(lines: seq<Bytes>): seq<Bytes>
    decreases |lines|
  {
    if lines == [] then []
    else
      (match Split(lines[0])
       case None => []
       case Some(h) => if Named(h, "Content-Length") then [h.value] else [])
      + LengthValues(lines[1..])
  }

  /** The length that a list of values agrees on when `n` came before it. */
  function Common(n: Option<nat>, vs: seq<Bytes>): Option<nat> {
    if n.Some? || vs == [] then n else LengthOf(vs[0])
  }

  predicate AllAre(vs: seq<Bytes>, n: Option<nat>) {
    forall i | 0 <= i < |vs| :: n.Some? && LengthOf(vs[i]) == n
  }

  lemma AllAreHead(v: Bytes, ws: seq<Bytes>, n: Option<nat>)
    ensures AllAre([v] + ws, n) <==> n.Some? && LengthOf(v) == n && AllAre(ws, n)
  {
    var vs := [v] + ws;
    assert vs[0] == v;
    assert forall i | 0 <= i < |ws| :: ws[i] == vs[i + 1];
    assert forall i | 0 < i < |vs| :: vs[i] == ws[i - 1];
  }

  /** Pass 1 accepts exactly the heads whose Content-Length values are well formed and all equal. */
  lemma {:induction false} FramingAccepts(f: Framing, lines: seq<Bytes>)
    ensures var vs := LengthValues(lines);
      && (FramingOf(f, lines).Some? <==> AllAre(vs, Common(f.length, vs)))
      && (FramingOf(f, lines).Some? ==> FramingOf(f, lines).value.length == Common(f.length, vs))
    decreases |lines|
  {
    if lines != [] {
      var ws := LengthValues(lines[1..]);
      var g := Framed(f, lines[0]);
      if g.Some? { FramingAccepts(g.value, lines[1..]); }
      if Split(lines[0]).Some? && Named(Split(lines[0]).value, "Content-Length") {
        var v := Split(lines[0]).value.value;
        assert LengthValues(lines) == [v] + ws;
        AllAreHead(v, ws, Common(f.length, [v] + ws));
      } else {
        assert LengthValues(lines) == [] + ws == ws;
        assert g.Some? && g.value.length == f.length;
      }
    }
  }

  /** A head is refused if and only if its Content-Length values are malformed or disagree. */
  lemma InvalidIff(head: Bytes, headRequest: bool)
    ensures var vs := LengthValues(Tail(Lines(head)));
      Judge(head, headRequest).Invalid? <==> !AllAre(vs, Common(None, vs))
  {
    FramingAccepts(NO_FRAMING, Tail(Lines(head)));
  }

  // ---- what is forwarded is what frames the body ----

  /** A name the C string functions take for Content-Length, and that is not too long to be forwarded. */
  predicate LooksLikeLength(key: Bytes) { |key| <= NAME_MAX && SameNoCase(UpToNul(key), "Content-Length") }

  /** The first line with such a name. */
  function FirstLength(lines: seq<Bytes>): Option<Header>
    decreases |lines|
  {
    if lines == [] then None
    else if Split(lines[0]).Some? && LooksLikeLength(Split(lines[0]).value.key) then Split(lines[0])
    else FirstLength(lines[1..])
  }

  lemma LengthNotHopByHop(key: Bytes)
    requires SameNoCase(key, "Content-Length")
    ensures !HopByHop(key)
  {
    assert Lower(key[0]) == 'c' && |key| == 14;
  }

  /** What pass 2 forwards of one line, for the lengths among it. */
  lemma OneForwarded(line: Bytes, sent: bool)
    ensures var (hs, sent') := Forwarded(line, false, sent);
      if Split(line).Some? && LooksLikeLength(Split(line).value.key) then
        var h := Split(line).value;
        sent' && Lengths(hs) == if sent then [] else [Header(UpToNul(h.key), h.value)]
      else
        sent' == sent && Lengths(hs) == []
  {
    if Split(line).Some? {
      var h := Split(line).value;
      if LooksLikeLength(h.key) { LengthNotHopByHop(UpToNul(h.key)); }
      var one := [Header(UpToNul(h.key), h.value)];
      assert one[1..] == [];
    }
  }

  /** The length that is forwarded is the one of the first line that looks like one, whatever pass 1 made of it. */
  lemma {:induction false} ForwardedLengthValue(lines: seq<Bytes>)
    ensures Lengths(ForwardedAll(lines, false, false)) ==
      match FirstLength(lines)
      case None => []
      case Some(h) => [Header(UpToNul(h.key), h.value)]
    decreases |lines|
  {
    if lines != [] {
      var (hs, sent') := Forwarded(lines[0], false, false);
      var rest := ForwardedAll(lines[1..], false, sent');
      OneForwarded(lines[0], false);
      LengthsConcat(hs, rest);
      if sent' {
        ForwardedLengths(lines[1..], false, true);
        assert Lengths(hs) + [] == Lengths(hs);
      } else {
        ForwardedLengthValue(lines[1..]);
        assert [] + Lengths(rest) == Lengths(rest);
      }
    }
  }

  /** The client is told no length, or the number of body bytes the decoder will deliver; a value is cut at a NUL
      before it goes out. */
  predicate Truthful(r: Reply) {
    Lengths(r.headers) != [] ==>
      var told := LengthOf(UpToNul(Lengths(r.headers)[0].value));
      told.Some? && BodyOf(r) == Body(Length, told.value, [])
  }

  /** For every reply with a body that is not chunked, the client is told the truth if and only if the first
      line that looks like a Content-Length carries the length that the lines of that full name agree on. */
  lemma ForwardedLengthFrames(head: Bytes, headRequest: bool)
    requires Judge(head, headRequest).Final?
    ensures var r, lines := Judge(head, headRequest).reply, Tail(Lines(head));
      !r.noBody ==>
        (Truthful(r) <==>
          || r.framing.chunked
          || FirstLength(lines).None?
          || (var told := LengthOf(UpToNul(FirstLength(lines).value.value));
              told.Some? && told == Common(None, LengthValues(lines))))
  {
    var r, lines := Judge(head, headRequest).reply, Tail(Lines(head));
    ForwardingIsSafe(head, headRequest);
    FramingAccepts(NO_FRAMING, lines);
    if !r.framing.chunked { ForwardedLengthValue(lines); }
  }

  lemma PlainKey(k: Bytes)
    requires '\0' !in k
    ensures UpToNul(k) == k
  {
  }

  /** The value of a line of the full name is among the values pass 1 read. */
  lemma {:induction false} FirstIsValue(lines: seq<Bytes>)
    requires FirstLength(lines).Some? && '\0' !in FirstLength(lines).value.key
    ensures FirstLength(lines).value.value in LengthValues(lines)
    decreases |lines|
  {
    if Split(lines[0]).Some? && LooksLikeLength(Split(lines[0]).value.key) {
      PlainKey(Split(lines[0]).value.key);
      assert LengthValues(lines)[0] == Split(lines[0]).value.value;
    } else {
      FirstIsValue(lines[1..]);
    }
  }

  lemma DigitsPlain(v: Bytes)
    requires LengthOf(v).Some?
    ensures UpToNul(v) == v
  {
    assert '\0' !in v by { assert forall i | 0 <= i < |v| :: IsDigit(v[i]); }
    PlainKey(v);
  }

  /** So a NUL in that one name is the only way to mislead the client. */
  lemma PlainLengthFrames(head: Bytes, headRequest: bool)
    requires Judge(head, headRequest).Final? && !Judge(head, headRequest).reply.noBody
    requires var f := FirstLength(Tail(Lines(head))); f.Some? ==> '\0' !in f.value.key
    ensures Truthful(Judge(head, headRequest).reply)
  {
    var lines := Tail(Lines(head));
    ForwardedLengthFrames(head, headRequest);
    FramingAccepts(NO_FRAMING, lines);
    if FirstLength(lines).Some? {
      var v, vs := FirstLength(lines).value.value, LengthValues(lines);
      FirstIsValue(lines);
      var i :| 0 <= i < |vs| && vs[i] == v;
      assert LengthOf(vs[i]) == Common(None, vs);
      DigitsPlain(v);
    }
  }

  // ---- a name with a NUL ----

  const NAME: Bytes := "Content-Length"
  const DECOY: Bytes := NAME + ['\0']

  function Line(key: Bytes, value: Bytes): Bytes { key + [':', ' '] + value }

  lemma {:induction false} ColonAt(s: Bytes, n: nat)
    requires n < |s| && s[n] == ':' && ':' !in s[..n]
    ensures IndexOf(s, ':') == n
    decreases n
  {
    if n > 0 {
      assert s[0] in s[..n];
      assert s[1..][..n - 1] == s[..n][1..];
      ColonAt(s[1..], n - 1);
    }
  }

  lemma SplitLine(key: Bytes, value: Bytes)
    requires ':' !in key && value != [] && !Blank(value[0]) && !Blank(value[|value| - 1])
    ensures Split(Line(key, value)) == Some(Header(key, value))
  {
    var line, rest := Line(key, value), [' '] + value;
    assert line[..|key|] == key && line[|key| + 1..] == rest && rest[1..] == value;
    ColonAt(line, |key|);
    assert TrimLeft(rest) == TrimLeft(value) == value;
  }

  lemma DecoyName()
    ensures |DECOY| == 15 && UpToNul(DECOY) == NAME && ':' !in NAME && ':' !in DECOY && '\0' !in NAME
    ensures LooksLikeLength(DECOY) && SameNoCase(NAME, NAME)
  {
    NulAt(DECOY, 14);
    assert DECOY[..14] == NAME;
  }

  lemma {:induction false} NulAt(s: Bytes, n: nat)
    requires n < |s| && s[n] == '\0' && '\0' !in s[..n]
    ensures IndexOf(s, '\0') == n
    decreases n
  {
    if n > 0 {
      assert s[0] in s[..n];
      assert s[1..][..n - 1] == s[..n][1..];
      NulAt(s[1..], n - 1);
    }
  }

  /** Pass 1 does not see the decoy, pass 2 forwards it. */
  lemma DecoyLine(v: Bytes, f: Framing)
    requires LengthOf(v).Some?
    ensures Split(Line(DECOY, v)) == Some(Header(DECOY, v)) && Framed(f, Line(DECOY, v)) == Some(f)
  {
    DecoyName();
    assert IsDigit(v[0]) && IsDigit(v[|v| - 1]);
    SplitLine(DECOY, v);
  }

  lemma RealLine(w: Bytes)
    requires LengthOf(w).Some?
    ensures Split(Line(NAME, w)) == Some(Header(NAME, w))
    ensures Framed(NO_FRAMING, Line(NAME, w)) == Some(NO_FRAMING.(length := LengthOf(w)))
  {
    DecoyName();
    assert IsDigit(w[0]) && IsDigit(w[|w| - 1]);
    SplitLine(NAME, w);
  }

  /** Two lines: one only pass 2 takes for a length, one both do. */
  lemma DecoyFirst(a: Bytes, b: Bytes, v: Bytes, f: Framing)
    requires Split(a) == Some(Header(DECOY, v)) && LooksLikeLength(DECOY) && UpToNul(DECOY) == NAME
    requires Framed(NO_FRAMING, a) == Some(NO_FRAMING) && Framed(NO_FRAMING, b) == Some(f)
    ensures FramingOf(NO_FRAMING, [a, b]) == Some(f) && FramingOf(NO_FRAMING, [a]) == Some(NO_FRAMING)
    ensures FirstLength([a, b]) == FirstLength([a]) == Some(Header(DECOY, v))
  {
    assert [a, b][1..] == [b] && [b][1..] == [] && [a][1..] == [];
    assert FramingOf(f, []) == Some(f);
  }

  /** A decoy in front: the decoder frames w bytes, the client is told v. */
  lemma Misled(v: Bytes, w: Bytes)
    requires LengthOf(v).Some? && LengthOf(w).Some?
    ensures var lines := [Line(DECOY, v), Line(NAME, w)];
      && FramingOf(NO_FRAMING, lines) == Some(Framing(LengthOf(w), false, false))
      && Lengths(ForwardedAll(lines, false, false)) == [Header(NAME, v)]
  {
    DecoyName();
    DecoyLine(v, NO_FRAMING);
    RealLine(w);
    DecoyFirst(Line(DECOY, v), Line(NAME, w), v, Framing(LengthOf(w), false, false));
    ForwardedLengthValue([Line(DECOY, v), Line(NAME, w)]);
  }

  /** A decoy alone: the body runs until the target closes, the client is told v. */
  lemma MisledAlone(v: Bytes)
    requires LengthOf(v).Some?
    ensures var lines := [Line(DECOY, v)];
      && FramingOf(NO_FRAMING, lines) == Some(NO_FRAMING)
      && Lengths(ForwardedAll(lines, false, false)) == [Header(NAME, v)]
  {
    DecoyName();
    DecoyLine(v, NO_FRAMING);
    DecoyFirst(Line(DECOY, v), Line(DECOY, v), v, NO_FRAMING);
    ForwardedLengthValue([Line(DECOY, v)]);
  }

  /** The lines "Content-Length\0: 5" and "Content-Length: 7". */
  lemma MisledByTwo()
    ensures var lines := [Line(DECOY, "5"), Line(NAME, "7")];
      && FramingOf(NO_FRAMING, lines) == Some(Framing(Some(7), false, false))
      && Lengths(ForwardedAll(lines, false, false)) == [Header(NAME, "5")]
  {
    assert "5"[..0] == "" && "7"[..0] == "" && Decimal("5") == 5 && Decimal("7") == 7;
    Misled("5", "7");
  }
}
