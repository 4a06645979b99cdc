/**
 What a response head says, read from its text: the status code, the lines, the framing its headers ask for
 and the headers that are forwarded.
 */
module HeadText {
  import opened Shared
  import opened BodyDecoder
  import opened ResponseHead
  import HeadScanner

  // ---- a line ----

  predicate AllBlank(s: Bytes) { forall i | 0 <= i < |s| :: Blank(s[i]) }

  /** Neither begins nor ends with a blank. */
  predicate Trim(s: Bytes) { s == [] || (!Blank(s[0]) && !Blank(s[|s| - 1])) }

  lemma {:induction false} TrimLeftBlanks(p: Bytes, x: Bytes)
    requires AllBlank(p)
    ensures TrimLeft(p + x) == TrimLeft(x)
    decreases |p|
  {
    if p == [] {
      assert p + x == x;
    } else {
      TrimLeftBlanks(p[1..], x);
      assert (p + x)[1..] == p[1..] + x;
    }
  }

  lemma {:induction false} TrimRightBlanks(x: Bytes, p: Bytes)
    requires AllBlank(p)
    ensures TrimRight(x + p) == TrimRight(x)
    decreases |p|
  {
    if p == [] {
      assert x + p == x;
    } else {
      var n := |p| - 1;
      TrimRightBlanks(x, p[..n]);
      assert (x + p)[..|x + p| - 1] == x + p[..n];
    }
  }

  lemma Trimmed(before: Bytes, value: Bytes, after: Bytes)
    requires AllBlank(before) && AllBlank(after) && Trim(value)
    ensures TrimRight(TrimLeft(before + value + after)) == value
  {
    assert before + value + after == before + (value + after);
    TrimLeftBlanks(before, value + after);
    if value == [] {
      TrimLeftBlanks(after, []);
      assert value + after == after + [];
    } else {
      assert (value + after)[0] == value[0];
      TrimRightBlanks(value, after);
    }
  }

  /** A name, a colon, and a value with blanks around it. */
  function LineOf(key: Bytes, before: Bytes, value: Bytes, after: Bytes): Bytes {
    key + ":" + (before + value + after)
  }

  /** Such a line is read as that name and that value; and only a line without a colon is no header. */
  lemma SplitText(key: Bytes, before: Bytes, value: Bytes, after: Bytes)
    requires ':' !in key && AllBlank(before) && AllBlank(after) && Trim(value)
    ensures Split(LineOf(key, before, value, after)) == Some(Header(key, value))
  {
    var rest := before + value + after;
    var line := LineOf(key, before, value, after);
    ColonBehind(key, rest);
    assert line[|key| + 1..] == rest;
    Trimmed(before, value, after);
  }

  lemma ColonBehind(key: Bytes, rest: Bytes)
    requires ':' !in key
    ensures var line := key + ":" + rest; IndexOf(line, ':') == |key| && line[..|key|] == key
  {
    var line := key + ":" + rest;
    assert line[|key|] == ':' && forall i | 0 <= i < |key| :: line[i] == key[i];
    FirstAt(line, ':', |key|);
  }

  lemma NoColonNoHeader(line: Bytes)
    ensures Split(line).None? <==> ':' !in line
  {
    if IndexOf(line, ':') == |line| { assert line[..|line|] == line; }
  }

  // ---- the values of a list header ----

  /** v[a..e] is a longest run without separators. */
  predicate Item(v: Bytes, a: nat, e: nat) {
    && a <= e <= |v| && (forall i | a <= i < e :: !Separator(v[i]))
    && (a == 0 || Separator(v[a - 1])) && (e == |v| || Separator(v[e]))
  }

  ghost predicate ListsFrom(v: Bytes, token: Bytes, start: nat) {
    exists a: nat, e: nat :: start <= a && Item(v, a, e) && SameNoCase(v[a..e], token)
  }

  lemma {:induction false} HasFrom(v: Bytes, token: Bytes, start: nat, b: bool)
    requires start <= |v| && (start == 0 || Separator(v[start - 1])) && HeadScanner.Tells(v, start, token, b)
    ensures b <==> ListsFrom(v, token, start)
    decreases |v| - start
  {
    var i, same, rest := ItemAt(v, token, start, b);
    if i < |v| {
      HasFrom(v, token, i + 1, rest);
    }
    FirstOrLater(v, token, start, i, same);
  }

  lemma ItemAt(v: Bytes, token: Bytes, start: nat, b: bool) returns (i: nat, same: bool, rest: bool)
    requires start <= |v| && (start == 0 || Separator(v[start - 1])) && HeadScanner.Tells(v, start, token, b)
    ensures Item(v, start, i) && (i < |v| ==> Separator(v[i])) && same == SameNoCase(v[start..i], token)
    ensures (b <==> same || (i < |v| && rest)) && (i < |v| ==> HeadScanner.Tells(v, i + 1, token, rest))
  {
    assert Look(0);
    i := start + RunLength(v[start..]);
    forall j | start <= j < i ensures !Separator(v[j]) { assert v[j] == v[start..][j - start]; }
    if i < |v| { assert v[i] == v[start..][i - start]; }
    HeadScanner.TokenStep(v, token, start, i);
    same, rest := SameNoCase(v[start..i], token), i < |v| && Has(v[i + 1..], token);
  }

  lemma FirstOrLater(v: Bytes, token: Bytes, start: nat, i: nat, same: bool)
    requires Item(v, start, i) && same == SameNoCase(v[start..i], token)
    ensures ListsFrom(v, token, start) <==> same || (i < |v| && ListsFrom(v, token, i + 1))
  {
    if ListsFrom(v, token, start) {
      var a: nat, e: nat :| start <= a && Item(v, a, e) && SameNoCase(v[a..e], token);
      if a <= i {
        assert a == start && e == i;
      }
    }
  }

  /** The token is found exactly when one of the values, between separators, is that token in any case. */
  lemma HasIff(v: Bytes, token: Bytes)
    ensures Has(v, token) <==> exists a: nat, e: nat :: Item(v, a, e) && SameNoCase(v[a..e], token)
  {
    HeadScanner.Told(v, token);
    HasFrom(v, token, 0, Has(v, token));
  }

  // ---- framing ----

  predicate IsNamed(line: Bytes, name: Bytes) { Split(line).Some? && Named(Split(line).value, name) }

  predicate AnyNamed(lines: seq<Bytes>, name: Bytes) { exists i :: 0 <= i < |lines| && IsNamed(lines[i], name) }

  /** The last line of that name. */
  predicate LastNamed(lines: seq<Bytes>, name: Bytes, i: nat) {
    i < |lines| && IsNamed(lines[i], name) && forall j | i < j < |lines| :: !IsNamed(lines[j], name)
  }

  /** ... has the token among its values. */
  predicate LastSays(lines: seq<Bytes>, name: Bytes, token: Bytes) {
    exists i: nat :: i < |lines| && LastNamed(lines, name, i) && Has(Split(lines[i]).value.value, token)
  }

  lemma LastShift(lines: seq<Bytes>, name: Bytes, token: Bytes)
    requires lines != []
    ensures AnyNamed(lines, name) <==> IsNamed(lines[0], name) || AnyNamed(lines[1..], name)
    ensures LastSays(lines, name, token) <==>
      if AnyNamed(lines[1..], name) then LastSays(lines[1..], name, token)
      else IsNamed(lines[0], name) && Has(Split(lines[0]).value.value, token)
  {
    var rest := lines[1..];
    assert forall i | 0 <= i < |rest| :: rest[i] == lines[i + 1];
    assert forall i | 0 < i < |lines| :: lines[i] == rest[i - 1];
    if LastSays(rest, name, token) {
      var i: nat :| i < |rest| && LastNamed(rest, name, i) && Has(Split(rest[i]).value.value, token);
      assert LastNamed(lines, name, i + 1);
    }
    if LastSays(lines, name, token) {
      var i: nat :| i < |lines| && LastNamed(lines, name, i) && Has(Split(lines[i]).value.value, token);
      if i > 0 { assert LastNamed(rest, name, i - 1); }
    }
    if !AnyNamed(rest, name) && IsNamed(lines[0], name) { assert LastNamed(lines, name, 0); }
  }

  const TE := "Transfer-Encoding"
  const CONNECTION := "Connection"

  lemma FramedFlags(f: Framing, line: Bytes)
    requires Framed(f, line).Some?
    ensures var g := Framed(f, line).value;
      && g.chunked == (if IsNamed(line, TE) then Has(Split(line).value.value, "chunked") else f.chunked)
      && g.close == (if IsNamed(line, CONNECTION) then Has(Split(line).value.value, "close") else f.close)
  {
  }

  lemma {:induction false} FlagsFrom(f: Framing, lines: seq<Bytes>)
    requires FramingOf(f, lines).Some?
    ensures var g := FramingOf(f, lines).value;
      && g.chunked == (if AnyNamed(lines, TE) then LastSays(lines, TE, "chunked") else f.chunked)
      && g.close == (if AnyNamed(lines, CONNECTION) then LastSays(lines, CONNECTION, "close") else f.close)
    decreases |lines|
  {
    if lines != [] {
      FramedFlags(f, lines[0]);
      FlagsFrom(Framed(f, lines[0]).value, lines[1..]);
      LastShift(lines, TE, "chunked");
      LastShift(lines, CONNECTION, "close");
    }
  }

  lemma NoneSays(lines: seq<Bytes>, name: Bytes, token: Bytes)
    requires !AnyNamed(lines, name)
    ensures !LastSays(lines, name, token)
  {
  }

  /** An accepted head is chunked if and only if it has a Transfer-Encoding line and the last one lists
      "chunked", and ends its connection if and only if the last Connection line lists "close". */
  lemma FlagsIff(lines: seq<Bytes>)
    requires FramingOf(NO_FRAMING, lines).Some?
    ensures var f := FramingOf(NO_FRAMING, lines).value;
      && (f.chunked <==> LastSays(lines, TE, "chunked"))
      && (f.close <==> LastSays(lines, CONNECTION, "close"))
  {
    FlagsFrom(NO_FRAMING, lines);
    if !AnyNamed(lines, TE) { NoneSays(lines, TE, "chunked"); }
    if !AnyNamed(lines, CONNECTION) { NoneSays(lines, CONNECTION, "close"); }
  }

  // ---- the status line ----

  predicate DigitRun(s: Bytes) { |s| > 0 && AllDigits(s) }

  lemma {:induction false} CodeSnoc(s: Bytes, c: char, v: nat)
    requires AllDigits(s) && IsDigit(c)
    ensures CodeDigits(s + [c], v) == (CodeDigits(s, v) * 10 + (c as int - '0' as int)) % (SIZE_MAX + 1)
    decreases |s|
  {
    if s == [] {
      assert (s + [c])[1..] == [];
    } else {
      assert (s + [c])[1..] == s[1..] + [c];
      CodeSnoc(s[1..], c, (v * 10 + (s[0] as int - '0' as int)) % (SIZE_MAX + 1));
    }
  }

  lemma {:induction false} CodeIsDecimal(s: Bytes)
    requires AllDigits(s) && Decimal(s) <= SIZE_MAX
    ensures CodeDigits(s, 0) == Decimal(s)
    decreases |s|
  {
    if s != [] {
      var n := |s| - 1;
      DecimalMonotone(s, n);
      CodeIsDecimal(s[..n]);
      CodeSnoc(s[..n], s[n], 0);
      assert s[..n] + [s[n]] == s;
    }
  }

  /** A version, the code, and a reason that may be missing. */
  function StatusLine(version: Bytes, code: Bytes, reason: Option<Bytes>): Bytes {
    version + " " + (code + if reason.Some? then " " + reason.value else [])
  }

  /** The code of a status line is the number between its first two blanks. */
  lemma CodeText(version: Bytes, code: Bytes, reason: Option<Bytes>)
    requires ' ' !in version && DigitRun(code) && Decimal(code) < 0x8000_0000
    ensures StatusCode(StatusLine(version, code, reason)) == Decimal(code)
  {
    var tail := code + if reason.Some? then " " + reason.value else [];
    var line := StatusLine(version, code, reason);
    FirstAt(line, ' ', |version|);
    assert line[|version| + 1..] == tail;
    forall i | 0 <= i < |code| ensures tail[i] != ' ' { assert IsDigit(code[i]) && tail[i] == code[i]; }
    FirstAt(tail, ' ', |code|);
    assert tail[..|code|] == code;
    CodeIsDecimal(code);
  }

  lemma FirstAt(s: Bytes, c: char, n: nat)
    requires n <= |s| && (forall i | 0 <= i < n :: s[i] != c) && (n < |s| ==> s[n] == c)
    ensures IndexOf(s, c) == n
  {
    var i := IndexOf(s, c);
    forall j | 0 <= j < i ensures s[j] != c { assert s[..i][j] == s[j]; }
  }

  /** "HTTP/1.1 404 Not Found" */
  lemma NotFound(reason: Bytes)
    ensures StatusCode(StatusLine("HTTP/1.1", "404", Some(reason))) == 404
  {
    Decimal404();
    CodeText("HTTP/1.1", "404", Some(reason));
  }

  lemma Decimal404()
    ensures DigitRun("404") && Decimal("404") == 404
  {
    assert "404"[..2] == "40" && "40"[..1] == "4" && "4"[..0] == "";
  }

  // ---- the lines of a head ----

  /** Lines as they are sent. */
  function Sent(ls: seq<Bytes>): Bytes { if ls == [] then [] else ls[0] + "\r\n" + Sent(ls[1..]) }

  predicate OneLine(l: Bytes) { '\n' !in l }

  /** Are the lines that are read. */
  lemma {:induction false} LinesText(ls: seq<Bytes>)
    requires forall i | 0 <= i < |ls| :: OneLine(ls[i])
    ensures Lines(Sent(ls)) == ls
    decreases |ls|
  {
    if ls != [] {
      LineFirst(ls[0], Sent(ls[1..]));
      LinesText(ls[1..]);
    }
  }

  lemma LineFirst(l: Bytes, rest: Bytes)
    requires OneLine(l)
    ensures Lines(l + "\r\n" + rest) == [l] + Lines(rest)
  {
    var s := l + "\r\n" + rest;
    assert s[|l|] == '\r' && s[|l| + 1] == '\n';
    FirstAt(s, '\n', |l| + 1);
    assert s[..|l| + 1] == l + "\r" && s[|l| + 2..] == rest;
    assert (l + "\r")[..|l|] == l;
  }

  // ---- which headers are forwarded ----

  function LowerAll(s: Bytes): (t: Bytes)
    ensures |t| == |s| && forall i | 0 <= i < |s| :: t[i] == Lower(s[i])
  {
    seq(|s|, i requires 0 <= i < |s| => Lower(s[i]))
  }

  lemma SameIff(a: Bytes, b: Bytes)
    ensures SameNoCase(a, b) <==> LowerAll(a) == LowerAll(b)
  {
    if LowerAll(a) == LowerAll(b) {
      forall i | 0 <= i < |a| ensures Lower(a[i]) == Lower(b[i]) { assert LowerAll(a)[i] == LowerAll(b)[i]; }
    }
  }

  /** These are the gateway's own business. */
  const PRIVATE := {"connection", "keep-alive", "transfer-encoding", "upgrade", "trailer"}

  lemma Lowered(s: Bytes, t: Bytes)
    requires |s| == |t| && forall i | 0 <= i < |s| :: Lower(s[i]) == t[i]
    ensures LowerAll(s) == t
  {
  }

  lemma HopByHopIff(key: Bytes)
    ensures HopByHop(key) <==> LowerAll(key) in PRIVATE || "proxy-" <= LowerAll(key)
  {
    Lowered("Connection", "connection");
    Lowered("Keep-Alive", "keep-alive");
    Lowered("Transfer-Encoding", "transfer-encoding");
    Lowered("Upgrade", "upgrade");
    Lowered("Trailer", "trailer");
    Lowered("Proxy-", "proxy-");
    SameIff(key, "Connection");
    SameIff(key, "Keep-Alive");
    SameIff(key, "Transfer-Encoding");
    SameIff(key, "Upgrade");
    SameIff(key, "Trailer");
    ProxyPrefix(key);
  }

  lemma ProxyPrefix(key: Bytes)
    ensures (|key| >= 6 && SameNoCase(key[..6], "Proxy-")) <==> "proxy-" <= LowerAll(key)
  {
    Lowered("Proxy-", "proxy-");
    if |key| >= 6 {
      SameIff(key[..6], "Proxy-");
      assert LowerAll(key[..6]) == LowerAll(key)[..6];
    }
  }

  /** A header line whose name is not too long, not the gateway's own business and not a length. */
  predicate Ordinary(line: Bytes) {
    Split(line).Some? && var key := Split(line).value.key;
      && |key| <= 1024 && LowerAll(UpToNul(key)) !in PRIVATE + {"content-length"}
      && !("proxy-" <= LowerAll(UpToNul(key)))
  }

  /** The ordinary headers, in order, each with its name up to a NUL and its value. */
  function Ordinaries(lines: seq<Bytes>): seq<Header>
    decreases |lines|
  {
    if lines == [] then []
    else
      (if Ordinary(lines[0]) then [Header(UpToNul(Split(lines[0]).value.key), Split(lines[0]).value.value)] else [])
      + Ordinaries(lines[1..])
  }

  /** What is forwarded beside the length. */
  function Others(hs: seq<Header>): seq<Header> {
    if hs == [] then [] else (if IsLength(hs[0]) then [] else [hs[0]]) + Others(hs[1..])
  }

  lemma {:induction false} OthersConcat(a: seq<Header>, b: seq<Header>)
    ensures Others(a + b) == Others(a) + Others(b)
    decreases |a|
  {
    if a == [] {
      assert a + b == b;
    } else {
      assert (a + b)[1..] == a[1..] + b;
      OthersConcat(a[1..], b);
    }
  }

  lemma OneOrdinary(line: Bytes, chunked: bool, sent: bool)
    ensures Others(Forwarded(line, chunked, sent).0) == Ordinaries([line])
  {
    assert [line][1..] == [];
    if Split(line).Some? {
      var key := UpToNul(Split(line).value.key);
      HopByHopIff(key);
      SameIff(key, "Content-Length");
      Lowered("Content-Length", "content-length");
      var hs := Forwarded(line, chunked, sent).0;
      if |hs| == 1 { assert hs[1..] == []; }
    }
  }

  /** Exactly the ordinary headers are forwarded, in their order, beside at most one length. */
  lemma {:induction false} OrdinaryForwarded(lines: seq<Bytes>, chunked: bool, sent: bool)
    ensures Others(ForwardedAll(lines, chunked, sent)) == Ordinaries(lines)
    decreases |lines|
  {
    if lines != [] {
      var (hs, sent') := Forwarded(lines[0], chunked, sent);
      OneOrdinary(lines[0], chunked, sent);
      OrdinaryForwarded(lines[1..], chunked, sent');
      OthersConcat(hs, ForwardedAll(lines[1..], chunked, sent'));
      assert [lines[0]][1..] == [];
      assert Ordinaries([lines[0]]) + Ordinaries(lines[1..]) == Ordinaries(lines);
    }
  }

  // ---- the verdict ----

  /** The length the lines agree on, if any. */
  function Announced(lines: seq<Bytes>): Option<nat> { Common(None, LengthValues(lines)) }

  /** What the head of these lines makes of the body: none for HEAD, 204 and 304, then chunks, then a length,
      then everything until the target closes. */
  function BodyByText(code: int, lines: seq<Bytes>, headRequest: bool): Body {
    if headRequest || code == 204 || code == 304 || code < 200 then Body(Length, 0, [])
    else if LastSays(lines, "Transfer-Encoding", "chunked") then Body(ChunkSize, 0, [])
    else if Announced(lines).Some? then Body(Length, Announced(lines).value, [])
    else Body(UntilClose, 0, [])
  }

  lemma {:induction false} LengthValuesConcat(a: seq<Bytes>, b: seq<Bytes>)
    ensures LengthValues(a + b) == LengthValues(a) + LengthValues(b)
    decreases |a|
  {
    if a == [] {
      assert a + b == b;
    } else {
      assert (a + b)[1..] == a[1..] + b;
      LengthValuesConcat(a[1..], b);
    }
  }

  lemma {:induction false} NoLengths(lines: seq<Bytes>)
    requires !AnyNamed(lines, "Content-Length")
    ensures LengthValues(lines) == []
    decreases |lines|
  {
    if lines != [] {
      LastShift(lines, "Content-Length", "");
      NoLengths(lines[1..]);
    }
  }

  lemma DigitsTrim(v: Bytes)
    requires DigitRun(v)
    ensures Trim(v)
  {
    assert IsDigit(v[0]) && IsDigit(v[|v| - 1]);
  }

  /** The one Content-Length line announces the number it spells. */
  lemma OneLength(front: seq<Bytes>, before: Bytes, digits: Bytes, after: Bytes, back: seq<Bytes>)
    requires AllBlank(before) && AllBlank(after) && DigitRun(digits) && Decimal(digits) <= SIZE_MAX
    requires !AnyNamed(front, "Content-Length") && !AnyNamed(back, "Content-Length")
    ensures var lines := front + [LineOf("Content-Length", before, digits, after)] + back;
      Announced(lines) == Some(Decimal(digits)) && AllAre(LengthValues(lines), Announced(lines))
  {
    var line := LineOf("Content-Length", before, digits, after);
    DigitsTrim(digits);
    SplitText("Content-Length", before, digits, after);
    assert LengthValues([line]) == [digits] by { assert [line][1..] == []; }
    LengthValuesConcat(front, [line]);
    LengthValuesConcat(front + [line], back);
    NoLengths(front);
    NoLengths(back);
    assert [] + [digits] + [] == [digits];
  }

  /** The last Transfer-Encoding line, with a list of values that has "chunked" in it. */
  lemma ChunkedLine(front: seq<Bytes>, before: Bytes, value: Bytes, after: Bytes, back: seq<Bytes>)
    requires AllBlank(before) && AllBlank(after) && Trim(value) && !AnyNamed(back, TE)
    requires exists a: nat, e: nat :: Item(value, a, e) && SameNoCase(value[a..e], "chunked")
    ensures LastSays(front + [LineOf(TE, before, value, after)] + back, "Transfer-Encoding", "chunked")
  {
    SplitText(TE, before, value, after);
    HasIff(value, "chunked");
    LastAt(front, LineOf(TE, before, value, after), back, TE, "chunked");
  }

  lemma LastAt(front: seq<Bytes>, line: Bytes, back: seq<Bytes>, name: Bytes, token: Bytes)
    requires IsNamed(line, name) && Has(Split(line).value.value, token) && !AnyNamed(back, name)
    ensures LastSays(front + [line] + back, name, token)
  {
    var lines := front + [line] + back;
    assert lines[|front|] == line;
    forall j | |front| < j < |lines| ensures !IsNamed(lines[j], name) { assert lines[j] == back[j - |front| - 1]; }
    assert LastNamed(lines, name, |front|);
  }

  /** The verdict, from the code and the lines. */
  function OnLines(code: int, lines: seq<Bytes>, headRequest: bool): Judged {
    match FramingOf(NO_FRAMING, lines)
    case None => Invalid
    case Some(f) =>
      if 100 <= code < 200 then Interim
      else Final(Reply(code, ForwardedAll(lines, f.chunked, false), NoBody(code, headRequest), f))
  }

  lemma JudgeLines(status: Bytes, lines: seq<Bytes>, headRequest: bool)
    requires OneLine(status) && forall i | 0 <= i < |lines| :: OneLine(lines[i])
    ensures Judge(Sent([status] + lines), headRequest) == OnLines(StatusCode(status), lines, headRequest)
  {
    var all := [status] + lines;
    assert all[1..] == lines && all[0] == status;
    LinesText(all);
    JudgeOf(Sent(all), all, headRequest);
  }

  lemma JudgeOf(head: Bytes, all: seq<Bytes>, headRequest: bool)
    requires Lines(head) == all && all != []
    ensures Judge(head, headRequest) == OnLines(StatusCode(all[0]), all[1..], headRequest)
  {
  }

  /** What the lines say of the verdict. */
  predicate SaysOf(j: Judged, code: int, lines: seq<Bytes>, headRequest: bool) {
    var agreed := AllAre(LengthValues(lines), Announced(lines));
    match j
    case Invalid => !agreed
    case Interim => agreed && 100 <= code < 200
    case Final(r) =>
      && agreed && !(100 <= code < 200) && r.code == code
      && BodyOf(r) == BodyByText(code, lines, headRequest)
      && Others(r.headers) == Ordinaries(lines)
      && (r.framing.close <==> LastSays(lines, "Connection", "close"))
  }

  lemma SaysFinal(code: int, lines: seq<Bytes>, headRequest: bool)
    requires FramingOf(NO_FRAMING, lines).Some? && !(100 <= code < 200)
    ensures SaysOf(OnLines(code, lines, headRequest), code, lines, headRequest)
  {
    var f := FramingOf(NO_FRAMING, lines).value;
    FramingAccepts(NO_FRAMING, lines);
    FlagsIff(lines);
    OrdinaryForwarded(lines, f.chunked, false);
  }

  /** The verdict on the head of a status line and these lines: refused exactly when the lengths disagree,
      otherwise an interim one exactly for a code of 1xx, otherwise with this body and these headers. */
  lemma JudgeText(status: Bytes, lines: seq<Bytes>, headRequest: bool)
    requires OneLine(status) && forall i | 0 <= i < |lines| :: OneLine(lines[i])
    ensures SaysOf(Judge(Sent([status] + lines), headRequest), StatusCode(status), lines, headRequest)
  {
    JudgeLines(status, lines, headRequest);
    SaysAlways(StatusCode(status), lines, headRequest);
  }

  lemma SaysAlways(code: int, lines: seq<Bytes>, headRequest: bool)
    ensures SaysOf(OnLines(code, lines, headRequest), code, lines, headRequest)
  {
    if FramingOf(NO_FRAMING, lines).Some? && !(100 <= code < 200) {
      SaysFinal(code, lines, headRequest);
    } else {
      FramingAccepts(NO_FRAMING, lines);
    }
  }
}
