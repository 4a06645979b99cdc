/**
 Crontab expressions: what a text denotes, and the parser that fills the bitmaps.

 A text denotes numbers of any size.  The parser holds them in a 32-bit int, where a sum or a product
 that does not fit is undefined: it ends there with the outcome `Overflow`.
 */
module CronText {
  import opened Shared

  const INT_MAX := 0x7FFF_FFFF

  /** What became of a text. */
  datatype Verdict = Accepted | Refused | Overflow

  // ---- what one item of a field denotes ----

  predicate Digits(d: string) { |d| > 0 && AllDigits(d) }

  /** "*", a number, or a range. */
  datatype Base = Every | One(n: nat) | Span(n: nat, m: nat)

  predicate BaseText(t: string, b: Base) {
    match b
    case Every => t == "*"
    case One(n) => Digits(t) && Decimal(t) == n
    case Span(n, m) => exists k :: 0 <= k < |t| && SpanText(t, k, n, m)
  }

  predicate SpanText(t: string, k: nat, n: nat, m: nat)
    requires k < |t|
  {
    t[k] == '-' && Digits(t[..k]) && Digits(t[k + 1..]) && Decimal(t[..k]) == n && Decimal(t[k + 1..]) == m
  }

  /** A base, and a step behind a slash. */
  datatype Reading = Reading(base: Base, step: Option<nat>)

  predicate ItemText(t: string, r: Reading) {
    match r.step
    case None => BaseText(t, r.base)
    case Some(s) => exists k :: 0 <= k < |t| && StepText(t, k, r.base, s)
  }

  predicate StepText(t: string, k: nat, b: Base, s: nat)
    requires k < |t|
  {
    t[k] == '/' && BaseText(t[..k], b) && Digits(t[k + 1..]) && Decimal(t[k + 1..]) == s
  }

  function Low(r: Reading, min: int): int {
    match r.base
    case Every => min
    case One(n) => n
    case Span(n, _) => n
  }

  /** A single number with a step runs to the end of the domain. */
  function High(r: Reading, max: int): int {
    match r.base
    case Every => max
    case One(n) => if r.step.Some? then max else n
    case Span(_, m) => m
  }

  function Stride(r: Reading): int { if r.step.Some? then r.step.value else 1 }

  predicate Fits(r: Reading, min: int, max: int) {
    Stride(r) >= 1 && min <= Low(r, min) <= High(r, max) <= max
  }

  predicate Denotes(r: Reading, min: int, max: int, i: int) {
    Low(r, min) <= i <= High(r, max) && OnGrid(Low(r, min), Stride(r), i)
  }

  predicate OnGrid(low: int, step: int, i: int) { step >= 1 && (i - low) % step == 0 }

  // ---- reading a text from left to right ----

  /** The end of the run of digits that starts at p. */
  function RunEnd(s: string, p: nat): (q: nat)
    requires p <= |s|
    ensures p <= q <= |s| && AllDigits(s[p..q]) && (q < |s| ==> !IsDigit(s[q]))
    decreases |s| - p
  {
    if p < |s| && IsDigit(s[p]) then RunEnd(s, p + 1) else p
  }

  lemma {:induction false} RunEndAt(s: string, p: nat, q: nat)
    requires p <= q <= |s| && AllDigits(s[p..q]) && (q < |s| ==> !IsDigit(s[q]))
    ensures RunEnd(s, p) == q
    decreases q - p
  {
    if p < q {
      assert s[p] == s[p..q][0] && s[p + 1..q] == s[p..q][1..];
      RunEndAt(s, p + 1, q);
    }
  }

  function ReadTail(t: string, p: nat, b: Base): Option<Reading>
    requires p <= |t|
  {
    if p == |t| then Some(Reading(b, None))
    else if t[p] != '/' then None
    else
      var q := RunEnd(t, p + 1);
      if q == p + 1 || q < |t| then None else Some(Reading(b, Some(Decimal(t[p + 1..q]))))
  }

  /** The base at the start of the text, and where it ends. */
  function ReadBase(t: string): (r: Option<(Base, nat)>)
    ensures r.Some? ==> r.value.1 <= |t|
  {
    if |t| > 0 && t[0] == '*' then Some((Every, 1))
    else
      var p := RunEnd(t, 0);
      if p == 0 then None
      else if p < |t| && t[p] == '-' then
        var q := RunEnd(t, p + 1);
        if q == p + 1 then None else Some((Span(Decimal(t[0..p]), Decimal(t[p + 1..q])), q))
      else
        Some((One(Decimal(t[0..p])), p))
  }

  function Read(t: string): Option<Reading> {
    var r := ReadBase(t);
    if r.None? then None else ReadTail(t, r.value.1, r.value.0)
  }

  /** Where a base ends: at the end of the text or at a slash. */
  lemma ReadTailIff(t: string, p: nat, b: Base, r: Reading)
    requires p <= |t|
    ensures ReadTail(t, p, b) == Some(r) <==>
      && r.base == b
      && (if r.step.None? then p == |t|
          else p < |t| && t[p] == '/' && Digits(t[p + 1..]) && Decimal(t[p + 1..]) == r.step.value)
  {
    if p < |t| && t[p] == '/' {
      var q := RunEnd(t, p + 1);
      if Digits(t[p + 1..]) {
        assert t[p + 1..|t|] == t[p + 1..];
        RunEndAt(t, p + 1, |t|);
      }
      if q == |t| { assert t[p + 1..q] == t[p + 1..]; }
    }
  }

  lemma BaseRead(t: string, e: nat, b: Base)
    requires e <= |t| && (e < |t| ==> t[e] == '/') && BaseText(t[..e], b)
    ensures ReadBase(t) == Some((b, e))
  {
    var u := t[..e];
    assert forall i | 0 <= i < e :: u[i] == t[i];
    if b.One? {
      assert t[0..e] == u;
      RunEndAt(t, 0, e);
    } else if b.Span? {
      var k :| 0 <= k < |u| && SpanText(u, k, b.n, b.m);
      assert t[0..k] == u[..k] && t[k + 1..e] == u[k + 1..];
      RunEndAt(t, 0, k);
      RunEndAt(t, k + 1, e);
    }
  }

  lemma BaseWritten(t: string)
    requires ReadBase(t).Some?
    ensures var (b, e) := ReadBase(t).value; BaseText(t[..e], b)
  {
    var (b, e) := ReadBase(t).value;
    var u := t[..e];
    if b.One? {
      assert u == t[0..e];
    } else if b.Span? {
      var k := RunEnd(t, 0);
      assert u[..k] == t[0..k] && u[k + 1..] == t[k + 1..e];
      assert SpanText(u, k, b.n, b.m);
    }
  }

  /** The parser reads a text as r exactly when r is what the text says; so a text says one thing. */
  lemma ReadIff(t: string, r: Reading)
    ensures Read(t) == Some(r) <==> ItemText(t, r)
  {
    if ReadBase(t).Some? {
      var (b, e) := ReadBase(t).value;
      BaseWritten(t);
      ReadTailIff(t, e, b, r);
      if Read(t) == Some(r) {
        if r.step.None? { assert t[..e] == t; } else { assert StepText(t, e, b, r.step.value); }
      }
    }
    if ItemText(t, r) {
      if r.step.None? {
        assert t[..|t|] == t;
        BaseRead(t, |t|, r.base);
        ReadTailIff(t, |t|, r.base, r);
      } else {
        var k :| 0 <= k < |t| && StepText(t, k, r.base, r.step.value);
        BaseRead(t, k, r.base);
        ReadTailIff(t, k, r.base, r);
      }
    }
  }

  // ---- the numbers the parser reads ----

  /** The number at p, if there is one. */
  function NumberAt(t: string, p: nat): seq<nat>
    requires p <= |t|
  {
    var q := RunEnd(t, p);
    if q == p then [] else [Decimal(t[p..q])]
  }

  function BaseNumbers(t: string): seq<nat> {
    if |t| > 0 && t[0] == '*' then []
    else
      var p := RunEnd(t, 0);
      NumberAt(t, 0) + if 0 < p < |t| && t[p] == '-' then NumberAt(t, p + 1) else []
  }

  /** A base, then a slash: the step is read. */
  function StepNumbers(t: string): seq<nat> {
    if ReadBase(t).Some? && ReadBase(t).value.1 < |t| && t[ReadBase(t).value.1] == '/'
    then NumberAt(t, ReadBase(t).value.1 + 1) else []
  }

  /** The runs of digits the parser gets to: of the bounds, and of the step behind a readable base. */
  function NumbersRead(t: string): seq<nat> { BaseNumbers(t) + StepNumbers(t) }

  predicate TooBig(ns: seq<nat>) { exists k :: 0 <= k < |ns| && ns[k] > INT_MAX }

  lemma TooBigConcat(a: seq<nat>, b: seq<nat>)
    ensures TooBig(a + b) <==> TooBig(a) || TooBig(b)
  {
    if TooBig(a) {
      var k :| 0 <= k < |a| && a[k] > INT_MAX;
      assert (a + b)[k] > INT_MAX;
    } else if TooBig(b) {
      var k :| 0 <= k < |b| && b[k] > INT_MAX;
      assert (a + b)[|a| + k] > INT_MAX;
    }
  }

  // ---- the item parser ----

  /** One number: refused without a digit, an overflow past INT_MAX. */
  predicate IsNumber(s: string, p: nat, v: Verdict, n: nat, q: nat)
    requires p <= |s|
  {
    && v == (if NumberAt(s, p) == [] then Refused else if TooBig(NumberAt(s, p)) then Overflow else Accepted)
    && (v.Accepted? ==> q == RunEnd(s, p) && n == Decimal(s[p..q]) && n <= INT_MAX)
  }

  method ParseUint(s: string, p: nat) returns (v: Verdict, n: nat, q: nat)
    requires p <= |s|
    ensures IsNumber(s, p, v, n, q)
  {
    n, q := 0, p;
    ghost var e := RunEnd(s, p);
    if p == |s| || !IsDigit(s[p]) {
      return Refused, n, q;
    }
    while q < |s| && IsDigit(s[q])
      invariant p <= q <= e && AllDigits(s[p..q]) && n == Decimal(s[p..q]) && n <= INT_MAX
      decreases |s| - q
    {
      RunGoesOn(s, p, q);
      if n * 10 + (s[q] as int - '0' as int) > INT_MAX {
        assert NumberAt(s, p)[0] > INT_MAX;
        return Overflow, n, q;
      }
      n := n * 10 + (s[q] as int - '0' as int);
      q := q + 1;
    }
    RunEndAt(s, p, q);
    v := Accepted;
  }

  /** A digit at q belongs to the run, and the number is at least what was read so far. */
  lemma RunGoesOn(s: string, p: nat, q: nat)
    requires p <= q < |s| && q <= RunEnd(s, p) && IsDigit(s[q])
    ensures q < RunEnd(s, p) && AllDigits(s[p..q]) && AllDigits(s[p..q + 1]) && AllDigits(s[p..RunEnd(s, p)])
    ensures Decimal(s[p..q + 1]) == 10 * Decimal(s[p..q]) + (s[q] as int - '0' as int)
    ensures Decimal(s[p..q + 1]) <= Decimal(s[p..RunEnd(s, p)])
  {
    var d := s[p..RunEnd(s, p)];
    assert d[..q + 1 - p] == s[p..q + 1] && d[..q - p] == s[p..q];
    assert s[p..q + 1][..q - p] == s[p..q];
    DecimalMonotone(d, q + 1 - p);
  }

  /** The base of an item as far as it was scanned: its bounds, where it ends, and whether it names them both. */
  predicate IsBase(t: string, min: nat, max: nat, v: Verdict, low: nat, high: nat, p: nat, closed: bool) {
    && (v.Overflow? <==> TooBig(BaseNumbers(t)))
    && (v.Accepted? <==> ReadBase(t).Some? && !TooBig(BaseNumbers(t)))
    && (v.Accepted? ==>
          var (b, e) := ReadBase(t).value;
          && p == e && closed == !b.One?
          && low == Low(Reading(b, None), min) && high == High(Reading(b, None), max))
  }

  lemma NoBase(t: string, min: nat, max: nat, low: nat, high: nat, p: nat, closed: bool)
    requires !(|t| > 0 && t[0] == '*') && NumberAt(t, 0) == []
    ensures IsBase(t, min, max, Refused, low, high, p, closed)
  {
  }

  /** The first number is too big. */
  lemma LowTooBig(t: string, min: nat, max: nat, low: nat, high: nat, p: nat, closed: bool)
    requires !(|t| > 0 && t[0] == '*') && TooBig(NumberAt(t, 0))
    ensures IsBase(t, min, max, Overflow, low, high, p, closed)
  {
    var q := RunEnd(t, 0);
    TooBigConcat(NumberAt(t, 0), if 0 < q < |t| && t[q] == '-' then NumberAt(t, q + 1) else []);
  }

  lemma SingleBase(t: string, min: nat, max: nat, low: nat, p: nat)
    requires !(|t| > 0 && t[0] == '*') && IsNumber(t, 0, Accepted, low, p) && !(p < |t| && t[p] == '-')
    ensures IsBase(t, min, max, Accepted, low, low, p, false)
  {
    assert NumberAt(t, 0) + [] == NumberAt(t, 0);
  }

  lemma SpanBase(t: string, min: nat, max: nat, low: nat, p: nat, v: Verdict, high: nat, q: nat)
    requires !(|t| > 0 && t[0] == '*') && IsNumber(t, 0, Accepted, low, p) && p < |t| && t[p] == '-'
    requires IsNumber(t, p + 1, v, high, q)
    ensures IsBase(t, min, max, v, low, high, q, true)
  {
    TooBigConcat(NumberAt(t, 0), NumberAt(t, p + 1));
  }

  method ScanBase(t: string, min: nat, max: nat)
    returns (v: Verdict, low: nat, high: nat, p: nat, closed: bool)
    ensures IsBase(t, min, max, v, low, high, p, closed)
  {
    low, high, p, closed := min, max, 0, true;
    if |t| > 0 && t[0] == '*' {
      p := 1;
      return Accepted, low, high, p, closed;
    }
    v, low, p := ParseUint(t, 0);
    if v.Refused? {
      NoBase(t, min, max, low, high, p, closed);
      return;
    }
    if v.Overflow? {
      LowTooBig(t, min, max, low, high, p, closed);
      return;
    }
    if p < |t| && t[p] == '-' {
      ghost var dash := p;
      v, high, p := ParseUint(t, p + 1);
      SpanBase(t, min, max, low, dash, v, high, p);
    } else {
      high, closed := low, false;
      SingleBase(t, min, max, low, p);
    }
  }

  /** Low, high and step of an item, before the range check. */
  method ScanItem(t: string, min: nat, max: nat) returns (v: Verdict, low: nat, high: nat, step: nat)
    ensures v.Overflow? <==> TooBig(NumbersRead(t))
    ensures v.Accepted? <==> Read(t).Some? && Stride(Read(t).value) >= 1 && !TooBig(NumbersRead(t))
    ensures v.Accepted? ==> var r := Read(t).value; low == Low(r, min) && high == High(r, max) && step == Stride(r)
  {
    var p, closed;
    v, low, high, p, closed := ScanBase(t, min, max);
    TooBigConcat(BaseNumbers(t), StepNumbers(t));
    step := 1;
    if !v.Accepted? {
      return;
    }
    if p < |t| && t[p] == '/' {
      v, step, p := ParseUint(t, p + 1);
      if !v.Accepted? {
        return;
      }
      if step < 1 {
        v := Refused;
        return;
      }
      if !closed {
        high := max;
      }
    }
    v := if p == |t| then Accepted else Refused;
  }

  /** The text is an item of the field's domain. */
  ghost predicate Accepts(t: string, min: nat, max: nat) { exists r :: ItemText(t, r) && Fits(r, min, max) }

  /** The text is such an item and names i. */
  ghost predicate Names(t: string, min: nat, max: nat, i: int) {
    exists r :: ItemText(t, r) && Fits(r, min, max) && Denotes(r, min, max, i)
  }

  /** The text is such an item, and one step past a value it names is past INT_MAX. */
  ghost predicate StepsOver(t: string, min: nat, max: nat) {
    exists r, i :: ItemText(t, r) && Fits(r, min, max) && Denotes(r, min, max, i) && i + Stride(r) > INT_MAX
  }

  /** The parser cannot hold a number of the text, or cannot step past a value it marks. */
  ghost predicate Overflows(t: string, min: nat, max: nat) { TooBig(NumbersRead(t)) || StepsOver(t, min, max) }

  /** Marks every step-th value from low to high, unless the sum overflows on the way. */
  method MarkSteps(low: nat, high: nat, step: nat, bitmap: array<bool>) returns (over: bool)
    requires low <= high < bitmap.Length && step >= 1
    modifies bitmap
    ensures over <==> exists i :: low <= i <= high && OnGrid(low, step, i) && i + step > INT_MAX
    ensures !over ==> forall i | 0 <= i < bitmap.Length ::
      bitmap[i] <==> old(bitmap[i]) || (low <= i <= high && OnGrid(low, step, i))
  {
    var i := low;
    while i <= high
      invariant low <= i && OnGrid(low, step, i)
      invariant forall j | 0 <= j < bitmap.Length ::
        bitmap[j] <==> old(bitmap[j]) || (low <= j <= high && j < i && OnGrid(low, step, j))
      invariant forall j | low <= j < i && OnGrid(low, step, j) :: j + step <= INT_MAX
      decreases high + step - i
    {
      bitmap[i] := true;
      if i + step > INT_MAX {
        return true;
      }
      NoneBetween(low, step, i);
      i := i + step;
    }
    over := false;
  }

  /** Marks what the item names. */
  method ParseItem(t: string, min: nat, max: nat, bitmap: array<bool>) returns (v: Verdict)
    requires max < bitmap.Length
    modifies bitmap
    ensures v.Overflow? <==> Overflows(t, min, max)
    ensures v.Accepted? <==> Accepts(t, min, max) && !Overflows(t, min, max)
    ensures v.Accepted? ==>
      forall i | 0 <= i < bitmap.Length :: bitmap[i] <==> old(bitmap[i]) || Names(t, min, max, i)
  {
    var low, high, step;
    v, low, high, step := ScanItem(t, min, max);
    OneReading(t, min, max);
    if !v.Accepted? {
      return;
    }
    if low < min || low > max || high < min || high > max || low > high {
      v := Refused;
      return;
    }
    ghost var r := Read(t).value;
    var over := MarkSteps(low, high, step, bitmap);
    assert forall i :: Denotes(r, min, max, i) <==> low <= i <= high && OnGrid(low, step, i);
    if over {
      v := Overflow;
    }
  }

  /** The readings of a text, through the one the parser finds. */
  lemma OneReading(t: string, min: nat, max: nat)
    ensures Accepts(t, min, max) <==> Read(t).Some? && Fits(Read(t).value, min, max)
    ensures forall i :: Names(t, min, max, i) <==> Accepts(t, min, max) && Denotes(Read(t).value, min, max, i)
    ensures StepsOver(t, min, max) <==>
      && Accepts(t, min, max)
      && exists i :: Denotes(Read(t).value, min, max, i) && i + Stride(Read(t).value) > INT_MAX
  {
    forall r ensures ItemText(t, r) <==> Read(t) == Some(r) { ReadIff(t, r); }
  }

  // ---- when an item overflows ----

  /** An item that denotes something overflows exactly when stepping past a value it names does. */
  lemma AcceptedOverflows(t: string, min: nat, max: nat)
    requires Accepts(t, min, max) && max <= INT_MAX
    ensures Overflows(t, min, max) <==> StepsOver(t, min, max)
  {
    OneReading(t, min, max);
    var r := Read(t).value;
    var low := Low(r, min);
    assert OnGrid(low, Stride(r), low) && Denotes(r, min, max, low);
    TooBigConcat(BaseNumbers(t), StepNumbers(t));
    if TooBig(BaseNumbers(t)) {
      var k :| 0 <= k < |BaseNumbers(t)| && BaseNumbers(t)[k] > INT_MAX;
      BaseNumbersFit(t, min, max);
    }
  }

  /** The bounds of an item of the domain are in the domain. */
  lemma BaseNumbersFit(t: string, min: nat, max: nat)
    requires Read(t).Some? && Fits(Read(t).value, min, max)
    ensures forall k | 0 <= k < |BaseNumbers(t)| :: BaseNumbers(t)[k] <= max
  {
  }

  /** A step small enough never overflows. */
  lemma SmallSteps(t: string, r: Reading, min: nat, max: nat)
    requires ItemText(t, r) && Fits(r, min, max) && max + Stride(r) <= INT_MAX
    ensures !Overflows(t, min, max)
  {
    assert Accepts(t, min, max);
    AcceptedOverflows(t, min, max);
    OneReading(t, min, max);
    ReadIff(t, r);
  }

  /** A number past INT_MAX denotes nothing in any field, but is not refused. */
  lemma LongNumberOverflows(t: string, min: nat, max: nat)
    requires Digits(t) && Decimal(t) > INT_MAX && max <= INT_MAX
    ensures !Accepts(t, min, max) && Overflows(t, min, max)
  {
    assert t[0..|t|] == t;
    RunEndAt(t, 0, |t|);
    OneReading(t, min, max);
    assert NumbersRead(t)[0] > INT_MAX;
  }

  lemma Snoc(d: string, c: char, t: string)
    requires AllDigits(d) && IsDigit(c) && t == d + [c]
    ensures AllDigits(t) && Decimal(t) == 10 * Decimal(d) + (c as int - '0' as int)
  {
    assert t[..|t| - 1] == d;
  }

  /** "4294967297", which becomes 1 where an int wraps around. */
  lemma WrappingNumber(min: nat, max: nat)
    requires max <= INT_MAX
    ensures !Accepts("4294967297", min, max) && Overflows("4294967297", min, max)
  {
    Snoc("", '4', "4");
    Snoc("4", '2', "42");
    Snoc("42", '9', "429");
    Snoc("429", '4', "4294");
    Snoc("4294", '9', "42949");
    Snoc("42949", '6', "429496");
    Snoc("429496", '7', "4294967");
    Snoc("4294967", '2', "42949672");
    Snoc("42949672", '9', "429496729");
    Snoc("429496729", '7', "4294967297");
    LongNumberOverflows("4294967297", min, max);
  }

  /** "1/2147483647" denotes 1 alone, but the step past it is not in an int. */
  lemma OverlongStep(max: nat)
    requires 1 <= max < INT_MAX
    ensures Accepts("1/2147483647", 1, max) && (forall i :: Names("1/2147483647", 1, max, i) <==> i == 1)
    ensures Overflows("1/2147483647", 1, max)
  {
    OverlongReading();
    StepPastOne("1/2147483647", max);
  }

  lemma StepPastOne(t: string, max: nat)
    requires ItemText(t, Reading(One(1), Some(INT_MAX))) && 1 <= max < INT_MAX
    ensures Accepts(t, 1, max) && (forall i :: Names(t, 1, max, i) <==> i == 1) && Overflows(t, 1, max)
  {
    var r := Reading(One(1), Some(INT_MAX));
    ReadIff(t, r);
    OneReading(t, 1, max);
    OnlyOne(r, max);
    assert Denotes(r, 1, max, 1) && 1 + Stride(r) > INT_MAX;
  }

  lemma OnlyOne(r: Reading, max: nat)
    requires r == Reading(One(1), Some(INT_MAX)) && 1 <= max < INT_MAX
    ensures Fits(r, 1, max) && (forall i :: Denotes(r, 1, max, i) <==> i == 1)
  {
    forall i | 1 < i <= max ensures !OnGrid(1, INT_MAX, i) { Quotient(i - 1, INT_MAX, 0, i - 1); }
    Quotient(0, INT_MAX, 0, 0);
  }

  lemma OverlongReading()
    ensures ItemText("1/2147483647", Reading(One(1), Some(INT_MAX)))
  {
    var t := "1/2147483647";
    LongStep();
    assert t[..1] == "1" && t[2..] == "2147483647";
    assert "1"[..0] == "" && Decimal("1") == 1;
    assert StepText(t, 1, One(1), INT_MAX);
  }

  lemma LongStep()
    ensures AllDigits("2147483647") && Decimal("2147483647") == INT_MAX
  {
    Snoc("", '2', "2");
    Snoc("2", '1', "21");
    Snoc("21", '4', "214");
    Snoc("214", '7', "2147");
    Snoc("2147", '4', "21474");
    Snoc("21474", '8', "214748");
    Snoc("214748", '3', "2147483");
    Snoc("2147483", '6', "21474836");
    Snoc("21474836", '4', "214748364");
    Snoc("214748364", '7', "2147483647");
  }

  lemma NoneBetween(low: int, step: int, i: int)
    requires OnGrid(low, step, i)
    ensures OnGrid(low, step, i + step)
    ensures forall j | i < j < i + step :: !OnGrid(low, step, j)
  {
    var q := (i - low) / step;
    assert i - low == step * q;
    Quotient(i + step - low, step, q + 1, 0);
    forall j | i < j < i + step ensures !OnGrid(low, step, j) {
      Quotient(j - low, step, q, j - i);
    }
  }

  // ---- words ----

  function SkipEnd(s: string, p: nat, d: char -> bool): (q: nat)
    requires p <= |s|
    ensures p <= q <= |s| && (forall i | p <= i < q :: d(s[i])) && (q < |s| ==> !d(s[q]))
    decreases |s| - p
  {
    if p < |s| && d(s[p]) then SkipEnd(s, p + 1, d) else p
  }

  function WordEnd(s: string, p: nat, d: char -> bool): (q: nat)
    requires p <= |s|
    ensures p <= q <= |s| && (forall i | p <= i < q :: !d(s[i])) && (q < |s| ==> d(s[q]))
    decreases |s| - p
  {
    if p < |s| && !d(s[p]) then WordEnd(s, p + 1, d) else p
  }

  /** What strtok_r hands out from p on. */
  function Words(s: string, p: nat, d: char -> bool): seq<string>
    requires p <= |s|
    decreases |s| - p
  {
    var a := SkipEnd(s, p, d);
    if a == |s| then [] else var e := WordEnd(s, a, d); [s[a..e]] + Words(s, e, d)
  }

  /** s[a..e] is a longest run without delimiters. */
  predicate IsWord(s: string, a: nat, e: nat, d: char -> bool) {
    && a < e <= |s| && (forall i | a <= i < e :: !d(s[i]))
    && (a == 0 || d(s[a - 1])) && (e == |s| || d(s[e]))
  }

  ghost predicate Occurs(s: string, p: nat, d: char -> bool, w: string) {
    exists a: nat, e: nat :: p <= a && IsWord(s, a, e, d) && w == s[a..e]
  }

  /** The words are the longest runs without delimiters, however many delimiters lie between. */
  lemma {:induction false} WordsIff(s: string, p: nat, d: char -> bool, w: string)
    requires p <= |s| && (p == 0 || p == |s| || d(s[p]) || d(s[p - 1]))
    ensures w in Words(s, p, d) <==> Occurs(s, p, d, w)
    decreases |s| - p
  {
    var a0 := SkipEnd(s, p, d);
    if a0 < |s| {
      var e0 := WordEnd(s, a0, d);
      assert IsWord(s, a0, e0, d);
      WordsIff(s, e0, d, w);
      OccursFirst(s, p, d, w, a0, e0);
    } else {
      forall a: nat, e: nat | p <= a ensures !IsWord(s, a, e, d) {
        if a < |s| { assert d(s[a]); }
      }
    }
  }

  lemma OccursFirst(s: string, p: nat, d: char -> bool, w: string, a0: nat, e0: nat)
    requires p <= a0 && IsWord(s, a0, e0, d) && forall i | p <= i < a0 :: d(s[i])
    ensures Occurs(s, p, d, w) <==> w == s[a0..e0] || Occurs(s, e0, d, w)
  {
    if Occurs(s, p, d, w) {
      var a: nat, e: nat :| p <= a && IsWord(s, a, e, d) && w == s[a..e];
      assert !d(s[a]);
      if a < e0 { SameWord(s, a, e, a0, e0, d); }
    }
    if Occurs(s, e0, d, w) {
      var a: nat, e: nat :| e0 <= a && IsWord(s, a, e, d) && w == s[a..e];
      assert p <= a && IsWord(s, a, e, d) && w == s[a..e];
    }
  }

  lemma SameWord(s: string, a: nat, e: nat, a0: nat, e0: nat, d: char -> bool)
    requires IsWord(s, a, e, d) && IsWord(s, a0, e0, d) && a < e0 && a0 <= a
    ensures a == a0 && e == e0
  {
  }

  lemma FirstWord(s: string, p: nat, d: char -> bool)
    requires p <= |s|
    ensures var a := SkipEnd(s, p, d); var e := WordEnd(s, a, d);
      Words(s, p, d) == if a == |s| then [] else [s[a..e]] + Words(s, e, d)
  {
  }

  /** A word, and the delimiter behind it. */
  lemma WordAt(s: string, p: nat, e: nat, d: char -> bool)
    requires p < e <= |s| && (forall i | p <= i < e :: !d(s[i])) && (e < |s| ==> d(s[e]))
    ensures Words(s, p, d) == [s[p..e]] + if e < |s| then Words(s, e + 1, d) else []
  {
    assert SkipEnd(s, p, d) == p && WordEnd(s, p, d) == e;
    if e < |s| { assert SkipEnd(s, e, d) == SkipEnd(s, e + 1, d); }
  }

  predicate IsBlank(c: char) { c == ' ' || c == '\t' }

  /** Words with one blank between them. */
  function Spaced(ws: seq<string>): string
    requires |ws| > 0
  {
    if |ws| == 1 then ws[0] else ws[0] + " " + Spaced(ws[1..])
  }

  predicate BlankFree(w: string) { |w| > 0 && forall i | 0 <= i < |w| :: !IsBlank(w[i]) }

  /** These are the words from p on. */
  ghost predicate WordsFrom(ws: seq<string>, s: string, p: nat) {
    forall n: nat {:trigger Look(n)} :: Look(n) ==> p <= |s| && ws == Words(s, p, IsBlank)
  }

  /** x is what is left of s at p. */
  ghost predicate Left(s: string, p: nat, x: string) {
    forall n: nat {:trigger Look(n)} :: Look(n) ==> p <= |s| && s[p..] == x
  }

  /** s[p..e] is a word, alone up to the blank behind it. */
  ghost predicate WordHere(s: string, p: nat, e: nat) {
    p < e <= |s| && (forall i | p <= i < e :: !IsBlank(s[i])) && (e < |s| ==> IsBlank(s[e]))
  }

  lemma LeftWord(s: string, p: nat, w: string)
    requires Left(s, p, w) && BlankFree(w)
    ensures |s| == p + |w| && WordHere(s, p, |s|) && s[p..|s|] == w
  {
    assert Look(0);
    forall i | p <= i < |s| ensures !IsBlank(s[i]) { assert s[i] == w[i - p]; }
  }

  lemma LeftMore(s: string, p: nat, w: string, rest: string)
    requires Left(s, p, w + " " + rest) && BlankFree(w)
    ensures var e := p + |w|; e < |s| && WordHere(s, p, e) && s[p..e] == w && Left(s, e + 1, rest)
  {
    assert Look(0);
    var x := w + " " + rest;
    assert forall i | 0 <= i < |x| :: s[p + i] == x[i];
    forall i | p <= i < p + |w| ensures !IsBlank(s[i]) { assert s[i] == x[i - p]; }
    assert x[|w| + 1..] == rest;
  }

  lemma LastFrom(s: string, p: nat, w: string)
    requires p < |s| && WordHere(s, p, |s|) && s[p..|s|] == w
    ensures WordsFrom([w], s, p)
  {
    WordAt(s, p, |s|, IsBlank);
  }

  lemma MoreFrom(s: string, p: nat, e: nat, ws: seq<string>)
    requires e < |s| && WordHere(s, p, e) && ws != [] && s[p..e] == ws[0] && WordsFrom(ws[1..], s, e + 1)
    ensures WordsFrom(ws, s, p)
  {
    WordAt(s, p, e, IsBlank);
    assert Look(0);
  }

  lemma {:induction false} SpacedFrom(s: string, p: nat, ws: seq<string>)
    requires |ws| > 0 && (forall k | 0 <= k < |ws| :: BlankFree(ws[k])) && Left(s, p, Spaced(ws))
    ensures WordsFrom(ws, s, p)
    decreases |ws|
  {
    var w := ws[0];
    assert BlankFree(w);
    if |ws| == 1 {
      LeftWord(s, p, w);
      LastFrom(s, p, w);
      assert ws == [w];
    } else {
      LeftMore(s, p, w, Spaced(ws[1..]));
      SpacedFrom(s, p + |w| + 1, ws[1..]);
      MoreFrom(s, p, p + |w|, ws);
    }
  }

  /** Are found again. */
  lemma SpacedWords(ws: seq<string>)
    requires |ws| > 0 && forall k | 0 <= k < |ws| :: BlankFree(ws[k])
    ensures Words(Spaced(ws), 0, IsBlank) == ws
  {
    SpacedFrom(Spaced(ws), 0, ws);
    assert Look(0);
  }

  /** The next word at or behind p; none when a == |s|. */
  method NextWord(s: string, p: nat, d: char -> bool) returns (a: nat, e: nat)
    requires p <= |s|
    ensures a == SkipEnd(s, p, d) && e == WordEnd(s, a, d)
  {
    a := p;
    while a < |s| && d(s[a])
      invariant p <= a <= |s| && SkipEnd(s, p, d) == SkipEnd(s, a, d)
      decreases |s| - a
    {
      a := a + 1;
    }
    e := a;
    while e < |s| && !d(s[e])
      invariant a <= e <= |s| && WordEnd(s, a, d) == WordEnd(s, e, d)
      decreases |s| - e
    {
      e := e + 1;
    }
  }

  // ---- a field ----

  predicate IsComma(c: char) { c == ',' }

  function Items(f: string): seq<string> { Words(f, 0, IsComma) }

  const FIELD_MAX := 128
  const EXPR_MAX := 256

  ghost predicate FieldAccepts(f: string, min: nat, max: nat) {
    |f| < FIELD_MAX && Items(f) != [] && AllAccept(Items(f), min, max)
  }

  ghost predicate SomeNames(ts: seq<string>, min: nat, max: nat, i: int) {
    exists k :: 0 <= k < |ts| && Names(ts[k], min, max, i)
  }

  ghost predicate FieldNames(f: string, min: nat, max: nat, i: int) { SomeNames(Items(f), min, max, i) }

  /** The item is accepted and marked. */
  ghost predicate Sound(t: string, min: nat, max: nat) { Accepts(t, min, max) && !Overflows(t, min, max) }

  /** An item overflows, and the parser gets to it. */
  ghost predicate ItemsOverflow(ts: seq<string>, min: nat, max: nat) {
    exists k :: 0 <= k < |ts| && Overflows(ts[k], min, max) && AllSound(ts[..k], min, max)
  }

  ghost predicate FieldOverflows(f: string, min: nat, max: nat) {
    |f| < FIELD_MAX && ItemsOverflow(Items(f), min, max)
  }

  /** A field of accepted items overflows exactly when one of them does. */
  lemma FieldOverflowsIff(f: string, min: nat, max: nat)
    requires FieldAccepts(f, min, max)
    ensures FieldOverflows(f, min, max) <==> exists k :: 0 <= k < |Items(f)| && Overflows(Items(f)[k], min, max)
  {
    var ts := Items(f);
    if k :| 0 <= k < |ts| && Overflows(ts[k], min, max) {
      var j := FirstOverflow(ts, min, max, k);
    }
  }

  lemma OnlyItem(f: string)
    requires |f| > 0 && ',' !in f
    ensures Items(f) == [f]
  {
    WordAt(f, 0, |f|, IsComma);
    assert f[0..|f|] == f;
  }

  /** A field of one item. */
  lemma OneItem(f: string, r: Reading, min: nat, max: nat)
    requires 0 < |f| < FIELD_MAX && ',' !in f && ItemText(f, r) && Fits(r, min, max) && max + Stride(r) <= INT_MAX
    ensures FieldAccepts(f, min, max) && !FieldOverflows(f, min, max)
    ensures forall i :: FieldNames(f, min, max, i) <==> Denotes(r, min, max, i)
  {
    OnlyItem(f);
    assert Accepts(f, min, max);
    SmallSteps(f, r, min, max);
    FieldOverflowsIff(f, min, max);
    forall i ensures FieldNames(f, min, max, i) <==> Denotes(r, min, max, i) { OnlyNames(f, r, min, max, i); }
  }

  lemma OnlyNames(f: string, r: Reading, min: nat, max: nat, i: int)
    requires Items(f) == [f] && ItemText(f, r) && Fits(r, min, max)
    ensures FieldNames(f, min, max, i) <==> Denotes(r, min, max, i)
  {
    ReadIff(f, r);
    OneReading(f, min, max);
    assert [f][0] == f;
  }

  /** A number names itself. */
  lemma NumberField(f: string, min: nat, max: nat)
    requires Digits(f) && |f| < FIELD_MAX && min <= Decimal(f) <= max < INT_MAX
    ensures FieldAccepts(f, min, max) && !FieldOverflows(f, min, max)
    ensures forall i :: FieldNames(f, min, max, i) <==> i == Decimal(f)
  {
    OneItem(f, Reading(One(Decimal(f)), None), min, max);
  }

  /** A star names the whole domain. */
  lemma StarField(min: nat, max: nat)
    requires min <= max < INT_MAX
    ensures FieldAccepts("*", min, max) && !FieldOverflows("*", min, max)
    ensures forall i :: FieldNames("*", min, max, i) <==> min <= i <= max
  {
    OneItem("*", Reading(Every, None), min, max);
  }

  lemma {:induction false} FirstOverflow(ts: seq<string>, min: nat, max: nat, k: nat) returns (j: nat)
    requires AllAccept(ts, min, max) && k < |ts| && Overflows(ts[k], min, max)
    ensures j < |ts| && Overflows(ts[j], min, max) && AllSound(ts[..j], min, max)
    decreases k
  {
    if i :| 0 <= i < k && Overflows(ts[i], min, max) {
      j := FirstOverflow(ts, min, max, i);
    } else {
      j := k;
    }
  }

  method ParseField(f: string, min: nat, max: nat, bitmap: array<bool>) returns (v: Verdict)
    requires max < bitmap.Length
    modifies bitmap
    ensures v.Overflow? <==> FieldOverflows(f, min, max)
    ensures v.Accepted? <==> FieldAccepts(f, min, max) && !FieldOverflows(f, min, max)
    ensures v.Accepted? ==> Shows(bitmap, Items(f), min, max)
  {
    for i := 0 to bitmap.Length
      invariant forall j | 0 <= j < i :: !bitmap[j]
    {
      bitmap[i] := false;
    }
    if |f| >= FIELD_MAX {
      return Refused;
    }
    v := MarkItems(f, min, max, bitmap);
  }

  /** The bitmap shows what these items name. */
  ghost predicate Shows(bitmap: array<bool>, ts: seq<string>, min: nat, max: nat)
    reads bitmap
  {
    forall i | 0 <= i < bitmap.Length :: bitmap[i] <==> SomeNames(ts, min, max, i)
  }

  ghost predicate AllAccept(ts: seq<string>, min: nat, max: nat) {
    forall k | 0 <= k < |ts| :: Accepts(ts[k], min, max)
  }

  ghost predicate AllSound(ts: seq<string>, min: nat, max: nat) {
    forall k | 0 <= k < |ts| :: Sound(ts[k], min, max)
  }

  /** The first k items are accepted and marked. */
  ghost predicate Marked(bitmap: array<bool>, all: seq<string>, k: nat, min: nat, max: nat)
    reads bitmap
  {
    forall n: nat {:trigger Look(n)} :: Look(n) ==>
      k <= |all| && AllSound(all[..k], min, max) && Shows(bitmap, all[..k], min, max)
  }

  method MarkItem(t: string, min: nat, max: nat, bitmap: array<bool>, ghost all: seq<string>, ghost k: nat)
    returns (v: Verdict)
    requires max < bitmap.Length && Marked(bitmap, all, k, min, max) && k < |all| && all[k] == t
    modifies bitmap
    ensures v.Overflow? <==> Overflows(t, min, max)
    ensures v.Accepted? <==> Sound(t, min, max)
    ensures v.Accepted? ==> Marked(bitmap, all, k + 1, min, max)
  {
    assert Look(0);
    ghost var done := all[..k];
    assert all[..k + 1] == done + [t];
    v := ParseItem(t, min, max, bitmap);
    forall i ensures SomeNames(done + [t], min, max, i) <==> SomeNames(done, min, max, i) || Names(t, min, max, i) {
      OneMore(done, t, min, max, i);
    }
  }

  /** Marks what the items name, one strtok_r at a time. */
  method MarkItems(f: string, min: nat, max: nat, bitmap: array<bool>) returns (v: Verdict)
    requires max < bitmap.Length && Shows(bitmap, [], min, max)
    modifies bitmap
    ensures v.Overflow? <==> ItemsOverflow(Items(f), min, max)
    ensures v.Accepted? <==>
      Items(f) != [] && AllAccept(Items(f), min, max) && !ItemsOverflow(Items(f), min, max)
    ensures v.Accepted? ==> Shows(bitmap, Items(f), min, max)
  {
    ghost var all := Items(f);
    var a, e := NextWord(f, 0, IsComma);
    FirstWord(f, 0, IsComma);
    if a == |f| {
      return Refused;
    }
    ghost var k := 0;
    MarkStarts(bitmap, all, min, max);
    while a < |f|
      invariant a <= e <= |f| && (a < |f| ==> a < e)
      invariant k <= |all| && all[k..] == if a == |f| then [] else [f[a..e]] + Words(f, e, IsComma)
      invariant Marked(bitmap, all, k, min, max)
      decreases |f| - a
    {
      Split(all, k, f[a..e], Words(f, e, IsComma));
      MarkStops(bitmap, all, k, min, max);
      v := MarkItem(f[a..e], min, max, bitmap, all, k);
      if !v.Accepted? {
        return;
      }
      k := k + 1;
      FirstWord(f, e, IsComma);
      a, e := NextWord(f, e, IsComma);
    }
    v := Accepted;
    MarkEnds(bitmap, all, min, max);
  }

  /** The first item that is not sound decides the field. */
  lemma MarkStops(bitmap: array<bool>, all: seq<string>, k: nat, min: nat, max: nat)
    requires Marked(bitmap, all, k, min, max) && k < |all|
    ensures !Sound(all[k], min, max) ==> (ItemsOverflow(all, min, max) <==> Overflows(all[k], min, max))
    ensures !Sound(all[k], min, max) && !Overflows(all[k], min, max) ==> !AllAccept(all, min, max)
  {
    assert Look(0);
    if !Sound(all[k], min, max) && ItemsOverflow(all, min, max) {
      var j :| 0 <= j < |all| && Overflows(all[j], min, max) && AllSound(all[..j], min, max);
      FirstUnsound(all, j, k, min, max);
    }
  }

  lemma FirstUnsound(ts: seq<string>, j: nat, k: nat, min: nat, max: nat)
    requires j < |ts| && !Sound(ts[j], min, max) && AllSound(ts[..j], min, max)
    requires k < |ts| && !Sound(ts[k], min, max) && AllSound(ts[..k], min, max)
    ensures j == k
  {
    forall i | 0 <= i < j ensures Sound(ts[i], min, max) { assert ts[..j][i] == ts[i]; }
    forall i | 0 <= i < k ensures Sound(ts[i], min, max) { assert ts[..k][i] == ts[i]; }
  }

  lemma MarkStarts(bitmap: array<bool>, all: seq<string>, min: nat, max: nat)
    requires Shows(bitmap, [], min, max)
    ensures Marked(bitmap, all, 0, min, max)
  {
    assert all[..0] == [];
  }

  lemma MarkEnds(bitmap: array<bool>, all: seq<string>, min: nat, max: nat)
    requires Marked(bitmap, all, |all|, min, max)
    ensures AllAccept(all, min, max) && !ItemsOverflow(all, min, max) && Shows(bitmap, all, min, max)
  {
    assert Look(0);
    assert all[..|all|] == all;
    assert forall k | 0 <= k < |all| :: Sound(all[k], min, max);
  }

  lemma Split(all: seq<string>, k: nat, t: string, rest: seq<string>)
    requires k <= |all| && all[k..] == [t] + rest
    ensures k < |all| && all[k] == t && all[k + 1..] == rest && all[..k + 1] == all[..k] + [t]
  {
    assert all[k] == all[k..][0];
    assert all[k + 1..] == all[k..][1..];
  }

  lemma OneMore(ts: seq<string>, t: string, min: nat, max: nat, i: int)
    ensures SomeNames(ts + [t], min, max, i) <==> SomeNames(ts, min, max, i) || Names(t, min, max, i)
  {
    var us := ts + [t];
    if SomeNames(ts, min, max, i) {
      var k :| 0 <= k < |ts| && Names(ts[k], min, max, i);
      assert us[k] == ts[k];
    }
    if Names(t, min, max, i) { assert us[|ts|] == t; }
  }
}
