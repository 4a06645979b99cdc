/**
 A parsed crontab schedule, when it is due, and the search for the next run.
 */
module CronSchedule {
  import opened Shared
  import opened CronText
  import opened Calendar

  /** The bitmaps; `wday` has Sunday at 0, and `mday` and `month` do not use index 0. */
  datatype Schedule = Schedule(minute: seq<bool>, hour: seq<bool>, mday: seq<bool>, month: seq<bool>, wday: seq<bool>,
                               mdayStar: bool, wdayStar: bool)

  // ---- the expression ----

  const SHORTHANDS := map[
    "@hourly" := "0 * * * *", "@daily" := "0 0 * * *", "@weekly" := "0 0 * * 0",
    "@monthly" := "0 0 1 * *", "@yearly" := "0 0 1 1 *"]

  function Fields(expr: string): seq<string> { Words(expr, 0, IsBlank) }

  /** The domains of the fields; both 0 and 7 are Sunday. */
  const LOW: seq<nat> := [0, 0, 1, 1, 0]
  const HIGH: seq<nat> := [59, 23, 31, 12, 7]

  ghost predicate Good(f: seq<string>, k: nat)
    requires |f| == 5 && k < 5
  {
    FieldAccepts(f[k], LOW[k], HIGH[k])
  }

  ghost predicate Over(f: seq<string>, k: nat)
    requires |f| == 5 && k < 5
  {
    FieldOverflows(f[k], LOW[k], HIGH[k])
  }

  /** Five fields that each denote something. */
  ghost predicate WellFormed(expr: string) {
    |expr| < EXPR_MAX && |Fields(expr)| == 5 && forall k | 0 <= k < 5 :: Good(Fields(expr), k)
  }

  /** The parser gets to a field and overflows in it. */
  ghost predicate ExprOverflows(expr: string) {
    && |expr| < EXPR_MAX && |Fields(expr)| == 5
    && exists k :: 0 <= k < 5 && Over(Fields(expr), k) && GoodBefore(Fields(expr), k)
  }

  ghost predicate GoodBefore(f: seq<string>, k: nat)
    requires |f| == 5 && k <= 5
  {
    forall j | 0 <= j < k :: Good(f, j) && !Over(f, j)
  }

  /** The first field that is not accepted decides the expression. */
  lemma Stops(expr: string, k: nat)
    requires |expr| < EXPR_MAX && |Fields(expr)| == 5 && k < 5 && GoodBefore(Fields(expr), k)
    ensures !(Good(Fields(expr), k) && !Over(Fields(expr), k)) ==>
      && (ExprOverflows(expr) <==> Over(Fields(expr), k))
      && (WellFormed(expr) ==> Over(Fields(expr), k))
  {
  }

  /** A well-formed expression overflows exactly when one of its items does: when stepping past a value
      that the item names does. */
  lemma ExprOverflowsIff(expr: string)
    requires WellFormed(expr)
    ensures ExprOverflows(expr) <==>
      exists k, n :: 0 <= k < 5 && 0 <= n < |Items(Fields(expr)[k])|
        && StepsOver(Items(Fields(expr)[k])[n], LOW[k], HIGH[k])
  {
    var f := Fields(expr);
    forall k | 0 <= k < 5
      ensures Over(f, k) <==> exists n :: 0 <= n < |Items(f[k])| && StepsOver(Items(f[k])[n], LOW[k], HIGH[k])
    {
      assert Good(f, k);
      FieldOverflowsIff(f[k], LOW[k], HIGH[k]);
      forall n | 0 <= n < |Items(f[k])|
        ensures Overflows(Items(f[k])[n], LOW[k], HIGH[k]) <==> StepsOver(Items(f[k])[n], LOW[k], HIGH[k])
      {
        AcceptedOverflows(Items(f[k])[n], LOW[k], HIGH[k]);
      }
    }
    if k :| 0 <= k < 5 && Over(f, k) {
      var j := FirstOver(f, k);
    }
  }

  lemma {:induction false} FirstOver(f: seq<string>, k: nat) returns (j: nat)
    requires |f| == 5 && k < 5 && Over(f, k) && forall i | 0 <= i < 5 :: Good(f, i)
    ensures j < 5 && Over(f, j) && GoodBefore(f, j)
    decreases k
  {
    if i :| 0 <= i < k && Over(f, i) {
      j := FirstOver(f, i);
    } else {
      j := k;
    }
  }

  /** The bitmap holds exactly what the field names. */
  ghost predicate Holds(bits: seq<bool>, f: string, min: nat, max: nat) {
    forall i | 0 <= i < |bits| :: bits[i] <==> FieldNames(f, min, max, i)
  }

  ghost predicate WdayNamed(f: string, w: int) { FieldNames(f, 0, 7, w) || (w == 0 && FieldNames(f, 0, 7, 7)) }

  ghost predicate Says(f: seq<string>, s: Schedule)
    requires |f| == 5
  {
    && |s.minute| == 60 && Holds(s.minute, f[0], 0, 59)
    && |s.hour| == 24 && Holds(s.hour, f[1], 0, 23)
    && |s.mday| == 32 && Holds(s.mday, f[2], 1, 31)
    && |s.month| == 13 && Holds(s.month, f[3], 1, 12)
    && |s.wday| == 7 && (forall i | 0 <= i < 7 :: s.wday[i] <==> WdayNamed(f[4], i))
    && s.mdayStar == (f[2] == "*") && s.wdayStar == (f[4] == "*")
  }

  method Bitmap(f: string, min: nat, max: nat, size: nat) returns (v: Verdict, bits: seq<bool>)
    requires max < size
    ensures v.Overflow? <==> FieldOverflows(f, min, max)
    ensures v.Accepted? <==> FieldAccepts(f, min, max) && !FieldOverflows(f, min, max)
    ensures v.Accepted? ==> |bits| == size && Holds(bits, f, min, max)
  {
    var a := new bool[size];
    v := ParseField(f, min, max, a);
    bits := a[..];
  }

  /** Splits the expression; only the first five fields are kept, all are counted. */
  method SplitFields(expr: string) returns (f: seq<string>, n: nat)
    ensures n == |Fields(expr)| && (n == 5 ==> f == Fields(expr))
  {
    ghost var all := Fields(expr);
    f, n := [], 0;
    var a, e := NextWord(expr, 0, IsBlank);
    FirstWord(expr, 0, IsBlank);
    while a < |expr|
      invariant a <= e <= |expr| && (a < |expr| ==> a < e)
      invariant n <= |all| && all[n..] == if a == |expr| then [] else [expr[a..e]] + Words(expr, e, IsBlank)
      invariant |f| == (if n < 5 then n else 5) && f == all[..|f|]
      decreases |expr| - a
    {
      Split(all, n, expr[a..e], Words(expr, e, IsBlank));
      if n < 5 {
        f := f + [expr[a..e]];
      }
      n := n + 1;
      FirstWord(expr, e, IsBlank);
      a, e := NextWord(expr, e, IsBlank);
    }
    assert all[..n] == all;
  }

  /** The outcome of a parse: the schedule when it is accepted. */
  datatype Parsed = Parsed(v: Verdict, s: Option<Schedule>)

  /** Refused and accepted as the text's meaning has it, unless the parser overflows. */
  ghost predicate Right(expr: string, r: Parsed) {
    && (r.v.Overflow? <==> ExprOverflows(expr))
    && (r.v.Accepted? <==> WellFormed(expr) && !ExprOverflows(expr))
    && (r.v.Accepted? <==> r.s.Some?) && (r.s.Some? ==> Says(Fields(expr), r.s.value))
  }

  /** The k-th field; the first one that is not accepted ends the parse. */
  method FieldBits(expr: string, f: seq<string>, k: nat, size: nat) returns (v: Verdict, bits: seq<bool>)
    requires |expr| < EXPR_MAX && f == Fields(expr) && |f| == 5 && k < 5 && GoodBefore(f, k) && HIGH[k] < size
    ensures v.Accepted? ==> GoodBefore(f, k + 1) && |bits| == size && Holds(bits, f[k], LOW[k], HIGH[k])
    ensures !v.Accepted? ==> Right(expr, Parsed(v, None))
  {
    v, bits := Bitmap(f[k], LOW[k], HIGH[k], size);
    Stops(expr, k);
  }

  lemma Ends(expr: string, s: Schedule)
    requires |expr| < EXPR_MAX && |Fields(expr)| == 5 && GoodBefore(Fields(expr), 5) && Says(Fields(expr), s)
    ensures Right(expr, Parsed(Accepted, Some(s)))
  {
  }

  /** Seven is Sunday too. */
  function Folded(days: seq<bool>): seq<bool>
    requires |days| == 8
  {
    if days[7] then days[..7][0 := true] else days[..7]
  }

  lemma FoldedNames(days: seq<bool>, f: string)
    requires |days| == 8 && Holds(days, f, 0, 7)
    ensures |Folded(days)| == 7 && forall i | 0 <= i < 7 :: Folded(days)[i] <==> WdayNamed(f, i)
  {
  }

  method ParseFive(expr: string) returns (r: Parsed)
    ensures Right(expr, r)
  {
    if |expr| >= EXPR_MAX {
      return Parsed(Refused, None);
    }
    var f, n := SplitFields(expr);
    if n != 5 {
      return Parsed(Refused, None);
    }
    var v, minute, hour, mday, month, days;
    v, minute := FieldBits(expr, f, 0, 60);
    if !v.Accepted? { return Parsed(v, None); }
    v, hour := FieldBits(expr, f, 1, 24);
    if !v.Accepted? { return Parsed(v, None); }
    v, mday := FieldBits(expr, f, 2, 32);
    if !v.Accepted? { return Parsed(v, None); }
    v, month := FieldBits(expr, f, 3, 13);
    if !v.Accepted? { return Parsed(v, None); }
    v, days := FieldBits(expr, f, 4, 8);
    if !v.Accepted? { return Parsed(v, None); }
    FoldedNames(days, f[4]);
    var s := Schedule(minute, hour, mday, month, Folded(days), f[2] == "*", f[4] == "*");
    Ends(expr, s);
    r := Parsed(Accepted, Some(s));
  }

  /** The five fields an expression stands for. */
  function Expanded(expr: string): string { if expr in SHORTHANDS then SHORTHANDS[expr] else expr }

  /** Not a shorthand nobody knows. */
  predicate Known(expr: string) { |expr| > 0 && (expr[0] == '@' ==> expr in SHORTHANDS) }

  method Parse(expr: string) returns (r: Parsed)
    ensures if Known(expr) then Right(Expanded(expr), r) else r == Parsed(Refused, None)
  {
    if |expr| == 0 {
      return Parsed(Refused, None);
    }
    if expr[0] == '@' {
      if expr !in SHORTHANDS {
        return Parsed(Refused, None);
      }
      r := ParseFive(SHORTHANDS[expr]);
      return;
    }
    assert expr !in SHORTHANDS;
    r := ParseFive(expr);
  }

  // ---- when a schedule is due ----

  predicate Sized(s: Schedule) {
    |s.minute| == 60 && |s.hour| == 24 && |s.mday| == 32 && |s.month| == 13 && |s.wday| == 7
  }

  predicate Matches(s: Schedule, tm: Tm)
    requires Sized(s)
  {
    s.minute[tm.min] && s.hour[tm.hour] && s.month[tm.mon] && DayMatches(s, tm.mday, tm.wday)
  }

  predicate DayMatches(s: Schedule, mday: int, wday: int)
    requires Sized(s) && 1 <= mday < 32 && 0 <= wday < 7
  {
    if s.mdayStar && s.wdayStar then true
    else if s.mdayStar then s.wday[wday]
    else if s.wdayStar then s.mday[mday]
    else s.mday[mday] || s.wday[wday]
  }

  /** A parsed schedule is due exactly when the minute, hour and month fields name the time and the day
      fields do: both of them where one is a plain star, either of them where neither is. */
  lemma DueIff(f: seq<string>, s: Schedule, tm: Tm)
    requires |f| == 5 && Says(f, s)
    ensures Matches(s, tm) <==>
      && FieldNames(f[0], 0, 59, tm.min) && FieldNames(f[1], 0, 23, tm.hour) && FieldNames(f[3], 1, 12, tm.mon)
      && (if f[2] == "*" || f[4] == "*" then FieldNames(f[2], 1, 31, tm.mday) && WdayNamed(f[4], tm.wday)
          else FieldNames(f[2], 1, 31, tm.mday) || WdayNamed(f[4], tm.wday))
  {
    StarNames(1, 31, tm.mday);
    StarNames(0, 7, tm.wday);
  }

  /** A plain star names the whole domain. */
  lemma StarNames(min: nat, max: nat, i: int)
    requires min <= i <= max
    ensures FieldNames("*", min, max, i)
  {
    var r := Reading(Every, None);
    assert ItemText("*", r) && OnGrid(min, 1, i);
    FirstWord("*", 0, IsComma);
    assert SkipEnd("*", 0, IsComma) == 0 && WordEnd("*", 0, IsComma) == 1;
    assert "*"[0..1] == "*";
    assert Items("*")[0] == "*";
    assert Names("*", min, max, i);
  }

  // ---- plain expressions, and the shorthands ----

  /** A field that is a star or one number. */
  predicate PlainField(f: string, n: Option<nat>, min: nat, max: nat) {
    match n
    case None => f == "*"
    case Some(v) => Digits(f) && |f| < FIELD_MAX && Decimal(f) == v && min <= v <= max
  }

  lemma PlainNames(f: string, n: Option<nat>, min: nat, max: nat)
    requires PlainField(f, n, min, max) && min <= max < INT_MAX
    ensures FieldAccepts(f, min, max) && !FieldOverflows(f, min, max)
    ensures forall i :: FieldNames(f, min, max, i) <==> if n.None? then min <= i <= max else i == n.value
    ensures f == "*" <==> n.None?
  {
    if n.None? {
      StarField(min, max);
    } else {
      NumberField(f, min, max);
      assert IsDigit(f[0]);
    }
  }

  predicate PlainFields(f: seq<string>, n: seq<Option<nat>>) {
    |f| == |n| == 5 && forall k | 0 <= k < 5 :: PlainField(f[k], n[k], LOW[k], HIGH[k])
  }

  predicate Is(n: Option<nat>, i: int) { n.None? || n.value == i }

  /** When such an expression is due: at the numbers, where two numbers for the day are either of them, and
      both 0 and 7 are Sunday. */
  predicate PlainDue(n: seq<Option<nat>>, tm: Tm)
    requires |n| == 5
  {
    && Is(n[0], tm.min) && Is(n[1], tm.hour) && Is(n[3], tm.mon)
    && var sunday := tm.wday == 0 && n[4] == Some(7);
       if n[2].Some? && n[4].Some? then Is(n[2], tm.mday) || Is(n[4], tm.wday) || sunday
       else Is(n[2], tm.mday) && (Is(n[4], tm.wday) || sunday)
  }

  lemma PlainAccepted(expr: string, n: seq<Option<nat>>)
    requires |expr| < EXPR_MAX && PlainFields(Fields(expr), n)
    ensures WellFormed(expr) && !ExprOverflows(expr)
  {
    var f := Fields(expr);
    forall k | 0 <= k < 5 ensures Good(f, k) && !Over(f, k) { PlainNames(f[k], n[k], LOW[k], HIGH[k]); }
  }

  lemma PlainNamesAt(f: string, n: Option<nat>, min: nat, max: nat, i: int)
    requires PlainField(f, n, min, max) && min <= i <= max < INT_MAX
    ensures (FieldNames(f, min, max, i) <==> Is(n, i)) && (f == "*" <==> n.None?)
  {
    PlainNames(f, n, min, max);
  }

  lemma PlainWday(f: string, n: Option<nat>, w: int)
    requires PlainField(f, n, 0, 7) && 0 <= w < 7
    ensures (WdayNamed(f, w) <==> Is(n, w) || (w == 0 && n == Some(7))) && (f == "*" <==> n.None?)
  {
    PlainNames(f, n, 0, 7);
  }

  /** Five stars or numbers are accepted, and due exactly then. */
  lemma PlainParsed(expr: string, n: seq<Option<nat>>, r: Parsed, tm: Tm)
    requires |expr| < EXPR_MAX && PlainFields(Fields(expr), n) && Right(expr, r)
    ensures r.v == Accepted && r.s.Some? && Sized(r.s.value) && (Matches(r.s.value, tm) <==> PlainDue(n, tm))
  {
    PlainAccepted(expr, n);
    PlainMatches(Fields(expr), n, r.s.value, tm);
  }

  lemma PlainMatches(f: seq<string>, n: seq<Option<nat>>, s: Schedule, tm: Tm)
    requires PlainFields(f, n) && Says(f, s)
    ensures Sized(s) && (Matches(s, tm) <==> PlainDue(n, tm))
  {
    DueIff(f, s, tm);
    PlainNamesAt(f[0], n[0], 0, 59, tm.min);
    PlainNamesAt(f[1], n[1], 0, 23, tm.hour);
    PlainNamesAt(f[2], n[2], 1, 31, tm.mday);
    PlainNamesAt(f[3], n[3], 1, 12, tm.mon);
    PlainWday(f[4], n[4], tm.wday);
  }

  lemma FiveFields(a: string, b: string, c: string, d: string, e: string)
    requires BlankFree(a) && BlankFree(b) && BlankFree(c) && BlankFree(d) && BlankFree(e)
    ensures Fields(a + " " + (b + " " + (c + " " + (d + " " + e)))) == [a, b, c, d, e]
  {
    var f := [a, b, c, d, e];
    SpacedWords(f);
    assert Spaced(f[4..]) == e;
    assert f[3..][1..] == f[4..] && Spaced(f[3..]) == d + " " + e;
    assert f[2..][1..] == f[3..] && Spaced(f[2..]) == c + " " + (d + " " + e);
    assert f[1..][1..] == f[2..] && Spaced(f[1..]) == b + " " + (c + " " + (d + " " + e));
  }

  /** The expression of five stars, zeros and ones. */
  function Text(n: seq<Option<nat>>): string
    requires |n| == 5
  {
    Digit(n[0]) + " " + (Digit(n[1]) + " " + (Digit(n[2]) + " " + (Digit(n[3]) + " " + Digit(n[4]))))
  }

  function Digit(n: Option<nat>): string { if n.None? then "*" else if n.value == 0 then "0" else "1" }

  lemma DigitField(n: Option<nat>, min: nat, max: nat)
    requires n.Some? ==> n.value <= 1 && min <= n.value <= max
    ensures PlainField(Digit(n), n, min, max) && BlankFree(Digit(n)) && |Digit(n)| == 1
  {
    assert "0"[..0] == "" && "1"[..0] == "";
  }

  lemma TextParsed(n: seq<Option<nat>>, r: Parsed, tm: Tm)
    requires |n| == 5 && forall k | 0 <= k < 5 :: n[k].Some? ==> n[k].value <= 1 && LOW[k] <= n[k].value
    requires Right(Text(n), r)
    ensures r.v == Accepted && r.s.Some? && Sized(r.s.value) && (Matches(r.s.value, tm) <==> PlainDue(n, tm))
  {
    DigitField(n[0], 0, 59);
    DigitField(n[1], 0, 23);
    DigitField(n[2], 1, 31);
    DigitField(n[3], 1, 12);
    DigitField(n[4], 0, 7);
    FiveFields(Digit(n[0]), Digit(n[1]), Digit(n[2]), Digit(n[3]), Digit(n[4]));
    PlainParsed(Text(n), n, r, tm);
  }

  /** A shorthand stands for this expression. */
  predicate StandsFor(name: string, n: seq<Option<nat>>) {
    && |n| == 5 && Known(name) && Expanded(name) == Text(n)
    && forall k | 0 <= k < 5 :: n[k].Some? ==> n[k].value <= 1 && LOW[k] <= n[k].value
  }

  lemma NamedDue(name: string, n: seq<Option<nat>>, r: Parsed, tm: Tm)
    requires StandsFor(name, n) && Right(Expanded(name), r)
    ensures r.v == Accepted && r.s.Some? && Sized(r.s.value) && (Matches(r.s.value, tm) <==> PlainDue(n, tm))
  {
    TextParsed(n, r, tm);
  }

  const HOURLY: seq<Option<nat>> := [Some(0), None, None, None, None]

  lemma HourlyText()
    ensures StandsFor("@hourly", HOURLY)
  {
  }

  /** The shorthands are accepted, and due on the hour, */
  lemma HourlyDue(r: Parsed, tm: Tm)
    requires Right(Expanded("@hourly"), r)
    ensures r.v == Accepted && r.s.Some? && Sized(r.s.value)
    ensures Matches(r.s.value, tm) <==> tm.min == 0
  {
    HourlyText();
    NamedDue("@hourly", HOURLY, r, tm);
  }

  const DAILY: seq<Option<nat>> := [Some(0), Some(0), None, None, None]

  lemma DailyText()
    ensures StandsFor("@daily", DAILY)
  {
  }

  /** at midnight, */
  lemma DailyDue(r: Parsed, tm: Tm)
    requires Right(Expanded("@daily"), r)
    ensures r.v == Accepted && r.s.Some? && Sized(r.s.value)
    ensures Matches(r.s.value, tm) <==> tm.min == 0 && tm.hour == 0
  {
    DailyText();
    NamedDue("@daily", DAILY, r, tm);
  }

  const WEEKLY: seq<Option<nat>> := [Some(0), Some(0), None, None, Some(0)]

  lemma WeeklyText()
    ensures StandsFor("@weekly", WEEKLY)
  {
  }

  /** at midnight to Sunday, */
  lemma WeeklyDue(r: Parsed, tm: Tm)
    requires Right(Expanded("@weekly"), r)
    ensures r.v == Accepted && r.s.Some? && Sized(r.s.value)
    ensures Matches(r.s.value, tm) <==> tm.min == 0 && tm.hour == 0 && tm.wday == 0
  {
    WeeklyText();
    NamedDue("@weekly", WEEKLY, r, tm);
  }

  const MONTHLY: seq<Option<nat>> := [Some(0), Some(0), Some(1), None, None]

  lemma MonthlyText()
    ensures StandsFor("@monthly", MONTHLY)
  {
  }

  /** at midnight to the first of the month, */
  lemma MonthlyDue(r: Parsed, tm: Tm)
    requires Right(Expanded("@monthly"), r)
    ensures r.v == Accepted && r.s.Some? && Sized(r.s.value)
    ensures Matches(r.s.value, tm) <==> tm.min == 0 && tm.hour == 0 && tm.mday == 1
  {
    MonthlyText();
    NamedDue("@monthly", MONTHLY, r, tm);
  }

  const YEARLY: seq<Option<nat>> := [Some(0), Some(0), Some(1), Some(1), None]

  lemma YearlyText()
    ensures StandsFor("@yearly", YEARLY)
  {
  }

  /** and at midnight to the first of the year. */
  lemma YearlyDue(r: Parsed, tm: Tm)
    requires Right(Expanded("@yearly"), r)
    ensures r.v == Accepted && r.s.Some? && Sized(r.s.value)
    ensures Matches(r.s.value, tm) <==> tm.min == 0 && tm.hour == 0 && tm.mday == 1 && tm.mon == 1
  {
    YearlyText();
    NamedDue("@yearly", YEARLY, r, tm);
  }

  // ---- the next run ----

  const HORIZON := 4 * 366 * 24 * 60 * 60

  /** C's division, which truncates. */
  function Trunc(a: int, b: int): int
    requires b > 0
  {
    if a >= 0 then a / b else -((-a) / b)
  }

  /** The minute the search starts at. */
  function Start(after: int): int { (Trunc(after, 60) + 1) * 60 }

  ghost predicate Due(s: Schedule, clock: int -> Tm, t: int)
    requires Sized(s)
  {
    t % 60 == 0 && Matches(s, clock(t))
  }

  /** r is the first due minute of the search, or -1 when there is none. */
  ghost predicate IsNext(s: Schedule, clock: int -> Tm, after: int, r: int)
    requires Sized(s)
  {
    if r == -1 then forall t | Start(after) <= t < Start(after) + HORIZON :: !Due(s, clock, t)
    else
      && Start(after) <= r < Start(after) + HORIZON && Due(s, clock, r)
      && forall t | Start(after) <= t < r :: !Due(s, clock, t)
  }

  method Next(s: Schedule, after: int, clock: int -> Tm) returns (r: int)
    requires Sized(s)
    ensures IsNext(s, clock, after, r)
  {
    var t := (Trunc(after, 60) + 1) * 60;
    var limit := t + HORIZON;
    r := -1;
    while t < limit
      invariant t % 60 == 0 && Start(after) <= t
      invariant forall u | Start(after) <= u < t :: !Due(s, clock, u)
      decreases limit - t
    {
      if Matches(s, clock(t)) {
        r := t;
        break;
      }
      forall u | t <= u < t + 60 ensures !Due(s, clock, u) {}
      t := t + 60;
    }
  }

  /** The search starts at the first whole minute behind `after`, except before the epoch inside a minute,
      where the division rounds the wrong way. */
  lemma StartIff(after: int)
    ensures Start(after) > after && Start(after) % 60 == 0
    ensures (forall t | after < t && t % 60 == 0 :: Start(after) <= t) <==> after >= 0 || after % 60 == 0
  {
    if after < 0 && after % 60 != 0 {
      var t := Start(after) - 60;
      assert after < t && t % 60 == 0;
    }
  }

  /** A skipped minute: half a minute before the epoch the search starts a minute behind it. */
  lemma EpochSkipped()
    ensures Start(-30) == 60
  {
  }

  /** A run that is found is the first one strictly behind `after`. */
  lemma NextIsLeast(s: Schedule, clock: int -> Tm, after: int, r: int)
    requires Sized(s) && IsNext(s, clock, after, r)
    requires r != -1 && (after >= 0 || after % 60 == 0)
    ensures after < r && Due(s, clock, r) && forall t | after < t < r :: !Due(s, clock, t)
  {
    StartIff(after);
  }

  /** Asking again before the run gives the same run. */
  lemma NextStays(s: Schedule, clock: int -> Tm, after: int, r: int, again: int)
    requires Sized(s) && IsNext(s, clock, after, r)
    requires r != -1 && 0 <= after <= again < r
    ensures IsNext(s, clock, again, r)
  {
    StartIff(again);
  }

  // ---- in UTC a run is found, and exactly when not ----

  /** The time at h:mi on a date. */
  function At(x: Date, h: int, mi: int): int
    requires IsDate(x)
  {
    86400 * DayOf(x) + 3600 * h + 60 * mi
  }

  lemma AtUtc(x: Date, h: int, mi: int)
    requires IsDate(x) && 0 <= h < 24 && 0 <= mi < 60
    ensures Utc(At(x, h, mi)) == Parts(mi, h, x.d, x.m, Weekday(DayOf(x)))
    ensures At(x, h, mi) % 60 == 0 && At(x, h, mi) / 86400 == DayOf(x)
  {
    var t := At(x, h, mi);
    TimeParts(DayOf(x), h, mi);
    OneDate(DateOf(t / 86400), x);
  }

  lemma TimeParts(day: int, h: int, mi: int)
    requires 0 <= h < 24 && 0 <= mi < 60
    ensures var t := 86400 * day + 3600 * h + 60 * mi;
      t / 86400 == day && t / 3600 % 24 == h && t / 60 % 60 == mi && t % 60 == 0
  {
    var t := 86400 * day + 3600 * h + 60 * mi;
    Quotient(t, 86400, day, 3600 * h + 60 * mi);
    Quotient(t, 3600, 24 * day + h, 60 * mi);
    Quotient(24 * day + h, 24, day, h);
    Quotient(t, 60, 1440 * day + 60 * h + mi, 0);
    Quotient(1440 * day + 60 * h + mi, 60, 24 * day + h, mi);
  }

  /** A date of the year after the one the search starts in is inside the search. */
  lemma NextYearInside(t0: int, x: Date, h: int, mi: int)
    requires IsDate(x) && 0 <= h < 24 && 0 <= mi < 60 && InYear(t0 / 86400, x.y - 1)
    ensures t0 <= At(x, h, mi) < t0 + HORIZON
  {
    DateInYear(x);
    YearStep(x.y - 1);
    YearStep(x.y);
  }

  predicate Has(bits: seq<bool>) { exists i :: 0 <= i < |bits| && bits[i] }

  /** Some allowed month has an allowed day in every year. */
  predicate InEveryYear(s: Schedule)
    requires Sized(s)
  {
    exists m, d :: 1 <= m <= 12 && 1 <= d <= MonthLength(2001, m) && s.month[m] && s.mday[d]
  }

  /** What the parser leaves: every field names something, and index 0 of days and months is unused. */
  predicate Filled(s: Schedule) {
    && Sized(s) && Has(s.minute) && Has(s.hour) && Has(s.mday) && Has(s.month) && Has(s.wday)
    && !s.month[0] && !s.mday[0] && (s.mdayStar ==> forall d | 1 <= d <= 31 :: s.mday[d])
    && (s.wdayStar ==> forall w | 0 <= w < 7 :: s.wday[w])
  }

  /** The weekday w falls on one of the first seven days of the month. */
  lemma WeekdayInMonth(y: int, m: int, w: int) returns (x: Date)
    requires 1 <= m <= 12 && 0 <= w < 7
    ensures IsDate(x) && x.y == y && x.m == m && Weekday(DayOf(x)) == w
  {
    var first := DayOf(Date(y, m, 1));
    var k := (w - Weekday(first)) % 7;
    x := Date(y, m, 1 + k);
    assert DayOf(x) == first + k;
  }

  /** Unless only the day of the month restricts the days, and to none that every year has, next year
      has a matching date. */
  lemma DateNextYear(s: Schedule, y: int) returns (x: Date)
    requires Filled(s) && (!s.wdayStar || s.mdayStar || InEveryYear(s))
    ensures IsDate(x) && x.y == y && s.month[x.m] && DayMatches(s, x.d, Weekday(DayOf(x)))
  {
    if s.wdayStar && !s.mdayStar {
      var m, d :| 1 <= m <= 12 && 1 <= d <= MonthLength(2001, m) && s.month[m] && s.mday[d];
      x := Date(y, m, d);
    } else {
      var m :| 0 <= m < |s.month| && s.month[m];
      var w :| 0 <= w < |s.wday| && s.wday[w];
      x := WeekdayInMonth(y, m, w);
    }
  }

  predicate Allowed(s: Schedule, h: int, mi: int)
    requires Sized(s)
  {
    0 <= h < 24 && 0 <= mi < 60 && s.hour[h] && s.minute[mi]
  }

  lemma SomeAllowed(s: Schedule) returns (h: int, mi: int)
    requires Filled(s)
    ensures Allowed(s, h, mi)
  {
    mi :| 0 <= mi < |s.minute| && s.minute[mi];
    h :| 0 <= h < |s.hour| && s.hour[h];
  }

  /** A matching date has a minute that is due. */
  lemma DueOn(s: Schedule, x: Date, h: int, mi: int)
    requires Sized(s) && Allowed(s, h, mi) && IsDate(x) && s.month[x.m] && DayMatches(s, x.d, Weekday(DayOf(x)))
    ensures Due(s, Utc, At(x, h, mi))
  {
    AtUtc(x, h, mi);
  }

  lemma UtcFinds(s: Schedule, after: int, r: int)
    requires Filled(s) && IsNext(s, Utc, after, r)
    requires !s.wdayStar || s.mdayStar || InEveryYear(s)
    ensures r != -1
  {
    var t0 := Start(after);
    var y := HasYear(t0 / 86400);
    var x := DateNextYear(s, y + 1);
    var h, mi := SomeAllowed(s);
    DueOn(s, x, h, mi);
    NextYearInside(t0, x, h, mi);
  }

  /** With such a schedule only February 29th can be due. */
  lemma OnlyLeapDay(s: Schedule, t: int)
    requires Filled(s) && s.wdayStar && !s.mdayStar && !InEveryYear(s)
    ensures Due(s, Utc, t) <==>
      var x := DateOf(t / 86400);
      t % 60 == 0 && s.minute[t / 60 % 60] && s.hour[t / 3600 % 24] && x.m == 2 && x.d == 29 && s.month[2] && s.mday[29]
  {
    var x := DateOf(t / 86400);
    if s.month[x.m] && s.mday[x.d] {
      assert MonthLength(2001, x.m) < x.d <= MonthLength(x.y, x.m);
    }
  }

  /** An allowed minute of a February 29th. */
  predicate LeapDayAt(s: Schedule, x: Date, h: int, mi: int)
    requires Sized(s)
  {
    && IsDate(x) && x.m == 2 && x.d == 29 && s.month[2] && s.mday[29]
    && 0 <= h < 24 && 0 <= mi < 60 && s.hour[h] && s.minute[mi]
  }

  /** One of them is inside the search. */
  ghost predicate LeapDayInside(s: Schedule, after: int)
    requires Sized(s)
  {
    exists x, h, mi :: LeapDayAt(s, x, h, mi) && Inside(after, At(x, h, mi))
  }

  predicate Inside(after: int, t: int) { Start(after) <= t < Start(after) + HORIZON }

  lemma LeapDayFound(s: Schedule, x: Date, h: int, mi: int)
    requires Filled(s) && s.wdayStar && !s.mdayStar && LeapDayAt(s, x, h, mi)
    ensures Due(s, Utc, At(x, h, mi))
  {
    AtUtc(x, h, mi);
  }

  lemma FoundLeapDay(s: Schedule, r: int) returns (x: Date, h: int, mi: int)
    requires Filled(s) && s.wdayStar && !s.mdayStar && !InEveryYear(s) && Due(s, Utc, r)
    ensures LeapDayAt(s, x, h, mi) && r == At(x, h, mi)
  {
    OnlyLeapDay(s, r);
    Clock(r);
    x, h, mi := DateOf(r / 86400), r / 3600 % 24, r / 60 % 60;
  }

  lemma Clock(t: int)
    requires t % 60 == 0
    ensures t == 86400 * (t / 86400) + 3600 * (t / 3600 % 24) + 60 * (t / 60 % 60)
  {
    assert t / 3600 / 24 == t / 86400;
    assert t / 60 / 60 == t / 3600;
  }

  // ---- the leap years around the search ----

  function LeapAt(y: int, h: int, mi: int): int
    requires IsLeap(y)
  {
    At(Date(y, 2, 29), h, mi)
  }

  /** The search lies between the February 29ths around the skipped leap year c. */
  ghost predicate InGap(s: Schedule, after: int, c: int)
    requires Sized(s)
  {
    && IsLeap(c - 4) && IsLeap(c + 4)
    && forall h, mi | Allowed(s, h, mi) ::
         LeapAt(c - 4, h, mi) < Start(after) && Start(after) + HORIZON <= LeapAt(c + 4, h, mi)
  }

  lemma LeapAtUp(y: int, z: int, h: int, mi: int)
    requires IsLeap(y) && IsLeap(z) && y <= z
    ensures LeapAt(y, h, mi) <= LeapAt(z, h, mi)
    ensures LeapAt(z, h, mi) <= LeapAt(y, h, mi) + 86400 * 366 * (z - y)
  {
    YearsApart(y, z);
    YearsWithin(y, z);
    assert DayOf(Date(y, 2, 29)) == YearStart(y) + 59 && DayOf(Date(z, 2, 29)) == YearStart(z) + 59;
  }

  /** Against the year the search starts in. */
  lemma LeapAtYear(y: int, t: int, z: int, h: int, mi: int)
    requires InYear(t / 86400, y) && IsLeap(z) && 0 <= h < 24 && 0 <= mi < 60
    ensures z < y ==> LeapAt(z, h, mi) < t
    ensures z > y ==> t < LeapAt(z, h, mi) < t + 86400 * 366 * (z - y) + 86400 * 60
    ensures z == y ==> LeapAt(z, h, mi) < t + 86400 * 366
  {
    assert DayOf(Date(z, 2, 29)) == YearStart(z) + 59;
    YearStep(z);
    if z < y {
      YearsApart(z + 1, y);
    } else if z > y {
      YearsApart(y + 1, z);
      YearsWithin(y, z);
    }
  }

  /** In the gap no February 29th is inside the search. */
  lemma GapHasNone(s: Schedule, after: int, c: int, x: Date, h: int, mi: int)
    requires Sized(s) && Skipped(c) && InGap(s, after, c) && LeapDayAt(s, x, h, mi)
    ensures !Inside(after, At(x, h, mi))
  {
    SkippedBetween(c);
    assert Allowed(s, h, mi) && x == Date(x.y, 2, 29) && IsLeap(x.y);
    if x.y <= c - 4 { LeapAtUp(x.y, c - 4, h, mi); } else { LeapAtUp(c + 4, x.y, h, mi); }
  }

  /** An allowed minute of this leap year is inside. */
  lemma InsideAt(s: Schedule, after: int, y: int, h: int, mi: int)
    requires Sized(s) && s.month[2] && s.mday[29] && IsLeap(y) && Allowed(s, h, mi) && Inside(after, LeapAt(y, h, mi))
    ensures LeapDayInside(s, after)
  {
    assert LeapDayAt(s, Date(y, 2, 29), h, mi);
  }

  /** The skipped leap year c: all minutes of c - 4 are past, those of c + 4 are to come. */
  lemma GapOrInside(s: Schedule, after: int, y: int, c: int)
    requires Filled(s) && s.month[2] && s.mday[29] && InYear(Start(after) / 86400, y)
    requires Skipped(c) && c - 4 <= y <= c && IsLeap(c - 4)
    requires forall h, mi | Allowed(s, h, mi) :: LeapAt(c - 4, h, mi) < Start(after)
    ensures InGap(s, after, c) || LeapDayInside(s, after)
  {
    SkippedBetween(c);
    if h, mi :| Allowed(s, h, mi) && LeapAt(c + 4, h, mi) < Start(after) + HORIZON {
      LeapAtYear(y, Start(after), c + 4, h, mi);
      InsideAt(s, after, c + 4, h, mi);
    }
  }

  /** The next leap year comes after four years: it is inside. */
  lemma FourYears(s: Schedule, after: int, y: int, z: int)
    requires Filled(s) && s.month[2] && s.mday[29] && InYear(Start(after) / 86400, y)
    requires IsLeap(z) && y < z <= y + 4
    requires z == y + 4 ==> IsLeap(y) && forall h, mi | Allowed(s, h, mi) :: LeapAt(y, h, mi) < Start(after)
    ensures LeapDayInside(s, after)
  {
    var h, mi := SomeAllowed(s);
    LeapAtYear(y, Start(after), z, h, mi);
    if z == y + 4 { LeapAtUp(y, z, h, mi); }
    InsideAt(s, after, z, h, mi);
  }

  /** The allowed minutes of earlier leap years are past. */
  lemma Past(s: Schedule, after: int, y: int, z: int)
    requires Sized(s) && InYear(Start(after) / 86400, y) && IsLeap(z) && z <= y
    requires IsLeap(y) ==> forall h, mi | Allowed(s, h, mi) :: LeapAt(y, h, mi) < Start(after)
    ensures forall h, mi | Allowed(s, h, mi) :: LeapAt(z, h, mi) < Start(after)
  {
    forall h, mi | Allowed(s, h, mi) ensures LeapAt(z, h, mi) < Start(after) {
      if z < y { LeapAtYear(y, Start(after), z, h, mi); }
    }
  }

  /** All allowed minutes of leap years up to y are past: the next leap year decides. */
  lemma NextLeapYear(s: Schedule, after: int, y: int)
    requires Filled(s) && s.month[2] && s.mday[29] && InYear(Start(after) / 86400, y)
    requires IsLeap(y) ==> forall h, mi | Allowed(s, h, mi) :: LeapAt(y, h, mi) < Start(after)
    ensures (exists c :: Skipped(c) && InGap(s, after, c)) || LeapDayInside(s, after)
  {
    var c := FourOrSkipped(y);
    if IsLeap(c) {
      FourYears(s, after, y, c);
    } else {
      SkippedBetween(c);
      Past(s, after, y, c - 4);
      GapOrInside(s, after, y, c);
    }
  }

  lemma GapIff(s: Schedule, after: int)
    requires Filled(s) && s.month[2] && s.mday[29]
    ensures LeapDayInside(s, after) <==> !exists c :: Skipped(c) && InGap(s, after, c)
  {
    if c :| Skipped(c) && InGap(s, after, c) {
      forall x, h, mi | LeapDayAt(s, x, h, mi) ensures !Inside(after, At(x, h, mi)) {
        GapHasNone(s, after, c, x, h, mi);
      }
    } else {
      var y := HasYear(Start(after) / 86400);
      if IsLeap(y) {
        if h, mi :| Allowed(s, h, mi) && LeapAt(y, h, mi) >= Start(after) {
          LeapAtYear(y, Start(after), y, h, mi);
          InsideAt(s, after, y, h, mi);
          return;
        }
      }
      NextLeapYear(s, after, y);
    }
  }

  /** February 29th is not allowed, or the search lies in the eight years around a skipped leap year: behind
      the last allowed minute of one February 29th, and its end before the first one of the next. */
  ghost predicate Missed(s: Schedule, after: int)
    requires Sized(s)
  {
    !(s.month[2] && s.mday[29]) || exists c :: Skipped(c) && InGap(s, after, c)
  }

  lemma MissedIff(s: Schedule, after: int)
    requires Filled(s)
    ensures LeapDayInside(s, after) <==> !Missed(s, after)
  {
    if s.month[2] && s.mday[29] { GapIff(s, after); }
  }

  /** Exactly when the search fails: only the day of the month restricts the days, no allowed month has an
      allowed day in every year, and February 29th is not allowed or missed. */
  lemma FailsIff(s: Schedule, after: int, r: int)
    requires Filled(s) && IsNext(s, Utc, after, r)
    ensures r == -1 <==> s.wdayStar && !s.mdayStar && !InEveryYear(s) && Missed(s, after)
  {
    if !s.wdayStar || s.mdayStar || InEveryYear(s) {
      UtcFinds(s, after, r);
    } else {
      MissedIff(s, after);
      if LeapDayInside(s, after) {
        var x, h, mi :| LeapDayAt(s, x, h, mi) && Inside(after, At(x, h, mi));
        LeapDayFound(s, x, h, mi);
      } else if r != -1 {
        var _, _, _ := FoundLeapDay(s, r);
      }
    }
  }

  // ---- a schedule that occurs and is not found ----

  function Only(size: nat, i: int): seq<bool> { seq(size, k => k == i) }

  const LEAP_DAY_TEXT := "0 0 29 2 *"
  const LEAP_DAY := Schedule(Only(60, 0), Only(24, 0), Only(32, 29), Only(13, 2), seq(7, _ => true), false, true)

  lemma LeapDayFields()
    ensures Fields(LEAP_DAY_TEXT) == ["0", "0", "29", "2", "*"]
  {
    var f := ["0", "0", "29", "2", "*"];
    SpacedWords(f);
    assert Spaced(f[4..]) == "*";
    assert f[3..][1..] == f[4..] && Spaced(f[3..]) == "2 *";
    assert f[2..][1..] == f[3..] && Spaced(f[2..]) == "29 2 *";
    assert f[1..][1..] == f[2..] && Spaced(f[1..]) == "0 29 2 *";
    assert Spaced(f) == LEAP_DAY_TEXT;
  }

  /** The fields are a number in each of the first four places and a star in the last. */
  predicate NumbersAndStar(f: seq<string>, n: seq<nat>) {
    && |f| == 5 && |n| == 4 && f[4] == "*"
    && forall k | 0 <= k < 4 ::
         Digits(f[k]) && |f[k]| < FIELD_MAX && Decimal(f[k]) == n[k] && LOW[k] <= n[k] <= HIGH[k]
  }

  lemma NumberBits(bits: seq<bool>, f: string, min: nat, max: nat)
    requires Digits(f) && |f| < FIELD_MAX && min <= Decimal(f) <= max < INT_MAX && Holds(bits, f, min, max)
    ensures bits == Only(|bits|, Decimal(f))
  {
    NumberField(f, min, max);
  }

  lemma StarDays(s: Schedule, f: seq<string>)
    requires |f| == 5 && f[4] == "*" && Says(f, s)
    ensures s.wday == seq(7, _ => true)
  {
    StarField(0, 7);
  }

  /** Such an expression is accepted. */
  lemma NumbersAccepted(expr: string, n: seq<nat>)
    requires |expr| < EXPR_MAX && NumbersAndStar(Fields(expr), n)
    ensures WellFormed(expr) && !ExprOverflows(expr)
  {
    var f := Fields(expr);
    forall k | 0 <= k < 5 ensures Good(f, k) && !Over(f, k) {
      if k < 4 { NumberField(f[k], LOW[k], HIGH[k]); } else { StarField(0, 7); }
    }
  }

  /** And its schedule is on one minute of one day of the year. */
  lemma NumbersParsed(expr: string, n: seq<nat>, r: Parsed)
    requires |expr| < EXPR_MAX && NumbersAndStar(Fields(expr), n) && Right(expr, r)
    ensures r.v == Accepted
    ensures r.s == Some(Schedule(
      Only(60, n[0]), Only(24, n[1]), Only(32, n[2]), Only(13, n[3]), seq(7, _ => true), false, true))
  {
    NumbersAccepted(expr, n);
    var f, s := Fields(expr), r.s.value;
    NumberBits(s.minute, f[0], 0, 59);
    NumberBits(s.hour, f[1], 0, 23);
    NumberBits(s.mday, f[2], 1, 31);
    NumberBits(s.month, f[3], 1, 12);
    StarDays(s, f);
    assert f[2] != "*" by { assert IsDigit(f[2][0]); }
  }

  lemma Decimals()
    ensures Digits("0") && Digits("29") && Digits("2") && Decimal("0") == 0 && Decimal("29") == 29 && Decimal("2") == 2
  {
    assert "29"[..1] == "2" && "2"[..0] == "" && "0"[..0] == "";
  }

  lemma LeapDayNumbers(f: seq<string>)
    requires f == ["0", "0", "29", "2", "*"]
    ensures NumbersAndStar(f, [0, 0, 29, 2])
  {
    Decimals();
  }

  /** The parser accepts the text, as this schedule. */
  lemma LeapDayParsed(r: Parsed)
    requires Right(LEAP_DAY_TEXT, r)
    ensures r == Parsed(Accepted, Some(LEAP_DAY))
  {
    LeapDayFields();
    LeapDayNumbers(Fields(LEAP_DAY_TEXT));
    NumbersParsed(LEAP_DAY_TEXT, [0, 0, 29, 2], r);
  }

  lemma LeapDayFilled()
    ensures Filled(LEAP_DAY) && LEAP_DAY.wdayStar && !LEAP_DAY.mdayStar && !InEveryYear(LEAP_DAY)
  {
    assert LEAP_DAY.minute[0] && LEAP_DAY.hour[0] && LEAP_DAY.mday[29] && LEAP_DAY.month[2] && LEAP_DAY.wday[0];
  }

  /** Behind March 1st 2096 the search gives up, although the schedule is due on February 29th 2104. */
  lemma LeapDayMissed(r: int)
    requires IsNext(LEAP_DAY, Utc, At(Date(2096, 3, 1), 0, 0), r)
    ensures Filled(LEAP_DAY) && r == -1 && Due(LEAP_DAY, Utc, At(Date(2104, 2, 29), 0, 0))
  {
    LeapDayFilled();
    Gap2100();
    FailsIff(LEAP_DAY, At(Date(2096, 3, 1), 0, 0), r);
    LeapDayDue2104();
  }

  lemma LeapDayDue2104()
    ensures Due(LEAP_DAY, Utc, At(Date(2104, 2, 29), 0, 0))
  {
    LeapDayFilled();
    LeapDayFound(LEAP_DAY, Date(2104, 2, 29), 0, 0);
  }

  lemma Gap2100()
    ensures Missed(LEAP_DAY, At(Date(2096, 3, 1), 0, 0))
  {
    var after := At(Date(2096, 3, 1), 0, 0);
    Around2100();
    assert Skipped(2100) && InGap(LEAP_DAY, after, 2100);
  }

  lemma Around2100()
    ensures LeapAt(2096, 0, 0) == At(Date(2096, 3, 1), 0, 0) - 86400
    ensures LeapAt(2104, 0, 0) > At(Date(2096, 3, 1), 0, 0) + HORIZON + 60
  {
    assert YearStart(2104) > YearStart(2096) + 2000;
  }

  // ---- what the parser accepts is filled ----

  lemma NamesInRange(f: string, min: nat, max: nat, i: int)
    requires FieldNames(f, min, max, i)
    ensures min <= i <= max
  {
  }

  lemma NamesSomething(f: string, min: nat, max: nat) returns (i: int)
    requires FieldAccepts(f, min, max)
    ensures min <= i <= max && FieldNames(f, min, max, i)
  {
    var t := Items(f)[0];
    assert Accepts(t, min, max);
    var r :| ItemText(t, r) && Fits(r, min, max);
    i := Low(r, min);
    assert OnGrid(i, Stride(r), i) && Denotes(r, min, max, i);
    assert Names(t, min, max, i);
  }

  lemma HasSomething(bits: seq<bool>, f: string, min: nat, max: nat)
    requires FieldAccepts(f, min, max) && Holds(bits, f, min, max) && max < |bits|
    ensures Has(bits) && (min > 0 ==> !bits[0])
  {
    var i := NamesSomething(f, min, max);
    assert bits[i];
    if FieldNames(f, min, max, 0) { NamesInRange(f, min, max, 0); }
  }

  lemma HasWeekday(f: string, s: Schedule)
    requires FieldAccepts(f, 0, 7) && Sized(s) && forall i | 0 <= i < 7 :: s.wday[i] <==> WdayNamed(f, i)
    ensures Has(s.wday)
  {
    var w := NamesSomething(f, 0, 7);
    var i := if w == 7 then 0 else w;
    assert WdayNamed(f, i);
    assert s.wday[i];
  }

  lemma StarsNameAll(f: seq<string>, s: Schedule)
    requires |f| == 5 && Says(f, s)
    ensures s.mdayStar ==> forall d | 1 <= d <= 31 :: s.mday[d]
    ensures s.wdayStar ==> forall w | 0 <= w < 7 :: s.wday[w]
  {
    forall k | 1 <= k <= 31 ensures f[2] == "*" ==> s.mday[k] { StarNames(1, 31, k); }
    forall k | 0 <= k < 7 ensures f[4] == "*" ==> s.wday[k] { StarNames(0, 7, k); }
  }

  lemma ParsedIsFilled(expr: string, s: Schedule)
    requires WellFormed(expr) && Says(Fields(expr), s)
    ensures Filled(s)
  {
    var f := Fields(expr);
    assert Good(f, 0) && Good(f, 1) && Good(f, 2) && Good(f, 3) && Good(f, 4);
    HasSomething(s.minute, f[0], 0, 59);
    HasSomething(s.hour, f[1], 0, 23);
    HasSomething(s.mday, f[2], 1, 31);
    HasSomething(s.month, f[3], 1, 12);
    HasWeekday(f[4], s);
    StarsNameAll(f, s);
  }

  /** The fields of an accepted expression name a month and a day that every year has. */
  ghost predicate NamedInEveryYear(f: seq<string>)
    requires |f| == 5
  {
    exists m, d :: 1 <= m <= 12 && 1 <= d <= MonthLength(2001, m)
      && FieldNames(f[3], 1, 12, m) && FieldNames(f[2], 1, 31, d)
  }

  /** Exactly when the search for an accepted expression fails. */
  lemma ExpressionFailsIff(expr: string, s: Schedule, after: int, r: int)
    requires WellFormed(expr) && Says(Fields(expr), s) && IsNext(s, Utc, after, r)
    ensures var f := Fields(expr);
      r == -1 <==> f[4] == "*" && f[2] != "*" && !NamedInEveryYear(f) && Missed(s, after)
  {
    ParsedIsFilled(expr, s);
    FailsIff(s, after, r);
  }
}
