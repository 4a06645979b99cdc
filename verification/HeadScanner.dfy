/**
 The loops that read a response head in place, each proved to compute its meaning in
 ResponseHead.
 */
module HeadScanner {
  import opened Shared
  import opened BodyDecoder
  import opened ResponseHead

  method Find(s: Bytes, c: char) returns (i: nat)
    ensures i == IndexOf(s, c)
  {
    i := 0;
    assert s[0..] == s;
    while i < |s| && s[i] != c
      invariant i <= |s| && IndexOf(s, c) == i + IndexOf(s[i..], c)
    {
      assert s[i..][1..] == s[i + 1..];
      i := i + 1;
    }
  }

  /** b says whether the token is among the values from `start` on. */
  ghost predicate Tells(v: Bytes, start: nat, token: Bytes, b: bool)
    requires start <= |v|
  {
    forall n: nat {:trigger Look(n)} :: Look(n) ==> (b <==> Has(v[start..], token))
  }

  /** Is `token` one of the comma- or blank-separated values? */
  method TokenIn(v: Bytes, token: Bytes) returns (found: bool)
    ensures found == Has(v, token)
  {
    var start: nat, i: nat := 0, 0;
    ghost var has, left := Has(v, token), Has(v, token);
    Told(v, token);
    while i < |v|
      invariant start <= i <= |v| && has == left && Tells(v, start, token, left)
      invariant forall j | start <= j < i :: !Separator(v[j])
    {
      if Separator(v[i]) {
        var same, rest := ValueAt(v, token, start, i, left);
        if same {
          return true;
        }
        start, left := i + 1, rest;
      }
      i := i + 1;
    }
    found, left := ValueAt(v, token, start, i, left);
  }

  lemma Told(v: Bytes, token: Bytes)
    ensures Tells(v, 0, token, Has(v, token))
  {
    assert v[0..] == v;
  }

  /** Is the value that ends at i the token?  `rest` says whether it comes behind. */
  method ValueAt(v: Bytes, token: Bytes, start: nat, i: nat, ghost left: bool) returns (same: bool, ghost rest: bool)
    requires start <= i <= |v| && (forall j | start <= j < i :: !Separator(v[j])) && (i < |v| ==> Separator(v[i]))
    requires Tells(v, start, token, left)
    ensures same == SameNoCase(v[start..i], token)
    ensures left <==> same || (i < |v| && rest)
    ensures i < |v| ==> Tells(v, i + 1, token, rest)
  {
    assert Look(0);
    TokenStep(v, token, start, i);
    same := SameNoCase(v[start..i], token);
    rest := i < |v| && Has(v[i + 1..], token);
  }

  lemma RunIs(v: Bytes, n: nat)
    requires n <= |v| && (forall j | 0 <= j < n :: !Separator(v[j])) && (n < |v| ==> Separator(v[n]))
    ensures RunLength(v) == n
  {
  }

  /** The values of v[start..] are v[start..i] and those behind the separator at i. */
  lemma TokenStep(v: Bytes, token: Bytes, start: nat, i: nat)
    requires start <= i <= |v| && (forall j | start <= j < i :: !Separator(v[j])) && (i < |v| ==> Separator(v[i]))
    ensures Has(v[start..], token) <==> SameNoCase(v[start..i], token) || (i < |v| && Has(v[i + 1..], token))
  {
    var w, n := v[start..], i - start;
    RunIs(w, n);
    assert w[..n] == v[start..i];
    if i < |v| { assert w[n + 1..] == v[i + 1..]; }
  }

  /** Content-Length, refused before the value can wrap. */
  method ParseLength(v: Bytes) returns (n: Option<nat>)
    ensures n == LengthOf(v)
  {
    if v == [] {
      return None;
    }
    var value: nat, i: nat := 0, 0;
    while i < |v|
      invariant i <= |v| && AllDigits(v[..i]) && value == Decimal(v[..i]) <= SIZE_MAX
    {
      if !IsDigit(v[i]) {
        return None;
      }
      var digit: nat := v[i] as int - '0' as int;
      assert v[..i + 1][..i] == v[..i];
      if value > (SIZE_MAX - digit) / 10 {
        if AllDigits(v) { DecimalMonotone(v, i + 1); }
        return None;
      }
      value := value * 10 + digit;
      i := i + 1;
    }
    assert v[..|v|] == v;
    return Some(value);
  }

  method SplitHeader(line: Bytes) returns (h: Option<Header>)
    ensures h == Split(line)
  {
    var colon := Find(line, ':');
    if colon == |line| {
      return None;
    }
    var v := line[colon + 1..];
    ghost var v0 := v;
    while v != [] && Blank(v[0])
      invariant TrimLeft(v0) == TrimLeft(v)
      decreases |v|
    {
      v := v[1..];
    }
    ghost var v1 := v;
    while v != [] && Blank(v[|v| - 1])
      invariant TrimRight(v1) == TrimRight(v)
      decreases |v|
    {
      v := v[..|v| - 1];
    }
    return Some(Header(line[..colon], v));
  }

  /** The line at `at` without its line end, and where the next one starts. */
  method NextLine(head: Bytes, at: nat) returns (line: Bytes, next: nat)
    requires at < |head|
    ensures at < next <= |head|
    ensures Lines(head[at..]) == [line] + Lines(head[next..])
  {
    var rest := head[at..];
    var i := Find(rest, '\n');
    line := rest[..i];
    if line != [] && line[|line| - 1] == '\r' {
      line := line[..|line| - 1];
    }
    if i < |rest| {
      next := at + i + 1;
      assert rest[i + 1..] == head[next..];
    } else {
      next := |head|;
      assert head[next..] == [];
    }
  }

  method ReadCode(line: Bytes) returns (code: int)
    ensures code == StatusCode(line)
  {
    var sp := Find(line, ' ');
    if sp == |line| {
      return 200;
    }
    var tail := line[sp + 1..];
    var sp2 := Find(tail, ' ');
    var token := tail[..sp2];
    var value: nat, i: nat := 0, 0;
    assert token[0..] == token;
    while i < |token| && IsDigit(token[i])
      invariant i <= |token| && CodeDigits(token, 0) == CodeDigits(token[i..], value)
    {
      assert token[i..][1..] == token[i + 1..];
      value := (value * 10 + (token[i] as int - '0' as int)) % (SIZE_MAX + 1);
      i := i + 1;
    }
    return ToInt(value);
  }

  /** One header line of pass 1. */
  method FrameLine(f: Framing, line: Bytes) returns (g: Option<Framing>)
    ensures g == Framed(f, line)
  {
    var h := SplitHeader(line);
    if h.None? {
      return Some(f);
    }
    if Named(h.value, "Content-Length") {
      var n := ParseLength(h.value.value);
      if n.None? || (f.length.Some? && f.length != n) {
        return None;
      }
      return Some(f.(length := n));
    }
    if Named(h.value, "Transfer-Encoding") {
      var c := TokenIn(h.value.value, "chunked");
      return Some(f.(chunked := c));
    }
    if Named(h.value, "Connection") {
      var c := TokenIn(h.value.value, "close");
      return Some(f.(close := c));
    }
    return Some(f);
  }

  /** One header line of pass 2. */
  method ForwardLine(line: Bytes, chunked: bool, sent: bool) returns (hs: seq<Header>, sent': bool)
    ensures (hs, sent') == Forwarded(line, chunked, sent)
  {
    var h := SplitHeader(line);
    if h.None? || |h.value.key| > NAME_MAX {
      return [], sent;
    }
    var nul := Find(h.value.key, '\0');
    var key := h.value.key[..nul];
    sent' := sent;
    if SameNoCase(key, "Content-Length") {
      if chunked || sent {
        return [], sent;
      }
      sent' := true;
    }
    if HopByHop(key) {
      return [], sent';
    }
    return [Header(key, h.value.value)], sent';
  }

  /** Pass 1 over the header lines that start at `start`. */
  method PassOne(head: Bytes, start: nat) returns (f: Option<Framing>)
    requires start <= |head|
    ensures f == FramingOf(NO_FRAMING, Lines(head[start..]))
  {
    var g, at := NO_FRAMING, start;
    while at < |head|
      invariant start <= at <= |head|
      invariant FramingOf(NO_FRAMING, Lines(head[start..])) == FramingOf(g, Lines(head[at..]))
    {
      var line, next := NextLine(head, at);
      assert Lines(head[at..])[0] == line && Lines(head[at..])[1..] == Lines(head[next..]);
      var g' := FrameLine(g, line);
      if g'.None? {
        return None;
      }
      g, at := g'.value, next;
    }
    assert head[at..] == [];
    return Some(g);
  }

  /** Pass 2 over the same lines. */
  method PassTwo(head: Bytes, start: nat, chunked: bool) returns (headers: seq<Header>)
    requires start <= |head|
    ensures headers == ForwardedAll(Lines(head[start..]), chunked, false)
  {
    var sent, at := false, start;
    headers := [];
    ghost var lines := Lines(head[start..]);
    ghost var all := ForwardedAll(lines, chunked, false);
    while at < |head|
      invariant start <= at <= |head| && lines == Lines(head[at..])
      invariant all == headers + ForwardedAll(lines, chunked, sent)
    {
      var line, next := NextLine(head, at);
      var hs, sent' := ForwardLine(line, chunked, sent);
      lines := ForwardStep(line, lines, hs, Lines(head[next..]), chunked, sent, sent', headers);
      headers, sent, at := headers + hs, sent', next;
    }
    assert head[at..] == [];
  }

  lemma ForwardStep(line: Bytes, lines: seq<Bytes>, hs: seq<Header>, rest: seq<Bytes>,
                    chunked: bool, sent: bool, sent': bool, before: seq<Header>) returns (r: seq<Bytes>)
    requires lines == [line] + rest && (hs, sent') == Forwarded(line, chunked, sent)
    ensures r == rest
    ensures before + ForwardedAll(lines, chunked, sent) == (before + hs) + ForwardedAll(rest, chunked, sent')
  {
    r := rest;
    assert lines[0] == line && lines[1..] == rest;
    var tail := ForwardedAll(rest, chunked, sent');
    assert before + (hs + tail) == (before + hs) + tail;
  }

  /** Both passes over a complete head. */
  method HeadDone(head: Bytes, headRequest: bool) returns (j: Judged)
    ensures j == Judge(head, headRequest)
  {
    var code, start: nat := 200, 0;
    assert head[0..] == head;
    if head != [] {
      var first;
      first, start := NextLine(head, 0);
      code := ReadCode(first);
    }
    assert Tail(Lines(head)) == Lines(head[start..]);
    var f := PassOne(head, start);
    if f.None? {
      return Invalid;
    }
    if 100 <= code < 200 {
      return Interim;
    }
    var headers := PassTwo(head, start, f.value.chunked);
    return Final(Reply(code, headers, NoBody(code, headRequest), f.value));
  }
}
