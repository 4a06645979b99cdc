/**
 The key of a metric series: name{k1="v1",k2="v2"}, with the labels sorted by name.
 Text is bytes.  Names are checked byte by byte; a value is not, and ends at its first NUL.
 */
module SeriesKey {
  import opened Shared

  datatype Label = Label(name: string, value: string)

  const LABELS_MAX := 8
  const VALUE_MAX := 128

  // ---- byte order ----

  predicate Less(a: string, b: string)
    decreases |a|
  {
    if b == [] then false
    else if a == [] then true
    else a[0] < b[0] || (a[0] == b[0] && Less(a[1..], b[1..]))
  }

  lemma {:induction false} LessTotal(a: string, b: string)
    ensures Less(a, b) || Less(b, a) || a == b
    ensures !(Less(a, b) && Less(b, a)) && !Less(a, a)
    decreases |a|
  {
    if a != [] {
      LessTotal(a[1..], a[1..]);
      if b != [] && a[0] == b[0] {
        LessTotal(a[1..], b[1..]);
        assert a[1..] == b[1..] ==> [a[0]] + a[1..] == [b[0]] + b[1..];
        assert a == [a[0]] + a[1..] && b == [b[0]] + b[1..];
      }
    }
  }

  lemma {:induction false} LessTrans(a: string, b: string, c: string)
    requires Less(a, b) && Less(b, c)
    ensures Less(a, c)
    decreases |a|
  {
    if a != [] && a[0] == b[0] == c[0] { LessTrans(a[1..], b[1..], c[1..]); }
  }

  // ---- the text of a key ----

  function Escape(v: string): string {
    if v == [] then [] else Unit(v[0]) + Escape(v[1..])
  }

  function LabelText(l: Label): string { l.name + ['=', '"'] + Escape(l.value) + ['"'] }

  /** The labels, each behind a comma unless it is the first. */
  function LabelsText(ls: seq<Label>, first: bool): string {
    if ls == [] then [] else (if first then [] else [',']) + LabelText(ls[0]) + LabelsText(ls[1..], false)
  }

  function PoolText(pool: string): string { if pool == [] then [] else "pool=\"" + pool + "\"" }

  function KeyText(name: string, pool: string, ls: seq<Label>): string {
    if pool == [] && ls == [] then name
    else name + "{" + PoolText(pool) + LabelsText(ls, pool == []) + "}"
  }

  /** What an escaped value stands for in the text format of Prometheus. */
  function Unescape(t: string): string
    decreases |t|
  {
    if t == [] then []
    else if t[0] == '\\' && |t| > 1 then [if t[1] == 'n' then '\n' else t[1]] + Unescape(t[2..])
    else [t[0]] + Unescape(t[1..])
  }

  /** Is the value; and no line ends inside it. */
  lemma {:induction false} Unescaped(v: string)
    ensures Unescape(Escape(v)) == v && '\n' !in Escape(v)
    decreases |v|
  {
    if v != [] {
      var u, rest := Unit(v[0]), Escape(v[1..]);
      Unescaped(v[1..]);
      assert (u + rest)[|u|..] == rest;
      assert v == [v[0]] + v[1..];
    }
  }

  /** A value without backslashes, quotes and line ends is written as it is. */
  lemma {:induction false} PlainValue(v: string)
    requires '\\' !in v && '"' !in v && '\n' !in v
    ensures Escape(v) == v
    decreases |v|
  {
    if v != [] {
      PlainValue(v[1..]);
      assert v == [v[0]] + v[1..];
    }
  }

  /** Items with a comma between them. */
  function Commas(items: seq<string>): string {
    if items == [] then [] else if |items| == 1 then items[0] else items[0] + "," + Commas(items[1..])
  }

  /** The pool, if there is one, and then the labels. */
  function KeyItems(pool: string, ls: seq<Label>): seq<string> {
    (if pool == [] then [] else ["pool=\"" + pool + "\""])
    + seq(|ls|, i requires 0 <= i < |ls| => ls[i].name + "=\"" + Escape(ls[i].value) + "\"")
  }

  /** The items of the labels alone. */
  lemma ItemsTail(ls: seq<Label>)
    requires ls != []
    ensures var items := KeyItems([], ls);
      |items| == |ls| && items[0] == LabelText(ls[0]) && items[1..] == KeyItems([], ls[1..])
  {
    var items := KeyItems([], ls);
    assert forall i | 0 <= i < |ls| :: items[i] == ls[i].name + "=\"" + Escape(ls[i].value) + "\"";
  }

  lemma CommasTail(items: seq<string>)
    requires items != []
    ensures Commas(items) == items[0] + if |items| == 1 then [] else "," + Commas(items[1..])
  {
    if |items| > 1 { CommaBehind(items[0], Commas(items[1..])); }
  }

  lemma {:induction false} LabelsAreItems(ls: seq<Label>)
    ensures LabelsText(ls, true) == Commas(KeyItems([], ls))
    ensures ls != [] ==> LabelsText(ls, false) == "," + Commas(KeyItems([], ls))
    decreases |ls|
  {
    if ls != [] {
      LabelsAreItems(ls[1..]);
      ItemsTail(ls);
      CommasTail(KeyItems([], ls));
      LabelsFirst(ls);
    }
  }

  lemma LabelsFirst(ls: seq<Label>)
    requires ls != []
    ensures LabelsText(ls, true) == LabelText(ls[0]) + LabelsText(ls[1..], false)
    ensures LabelsText(ls, false) == "," + LabelsText(ls, true)
  {
    CommaFront(LabelText(ls[0]), LabelsText(ls[1..], false));
  }

  lemma CommaFront(a: string, b: string)
    ensures [] + a + b == a + b && [','] + a + b == "," + (a + b)
  {
  }

  lemma PoolFirst(pool: string, ls: seq<Label>)
    ensures PoolText(pool) + LabelsText(ls, pool == []) == Commas(KeyItems(pool, ls))
    ensures KeyItems(pool, ls) == [] <==> pool == [] && ls == []
  {
    LabelsAreItems(ls);
    var items := KeyItems(pool, ls);
    if pool == [] {
      assert PoolText(pool) + LabelsText(ls, true) == LabelsText(ls, true);
    } else {
      assert items[1..] == KeyItems([], ls) && items[0] == PoolText(pool);
      if ls != [] { CommaBehind(items[0], Commas(items[1..])); }
    }
  }

  lemma CommaBehind(a: string, b: string)
    ensures a + ("," + b) == a + "," + b
  {
  }

  lemma Braced(name: string, a: string, b: string)
    ensures name + "{" + a + b + "}" == name + "{" + (a + b) + "}"
  {
  }

  /** The key is the name, and in braces the pool and the labels with commas between them, if there are any. */
  lemma KeyIs(name: string, pool: string, ls: seq<Label>)
    ensures var items := KeyItems(pool, ls);
      KeyText(name, pool, ls) == if items == [] then name else name + "{" + Commas(items) + "}"
  {
    PoolFirst(pool, ls);
    Braced(name, PoolText(pool), LabelsText(ls, pool == []));
  }

  predicate Sorted(ls: seq<Label>) { forall i, j | 0 <= i < j < |ls| :: Less(ls[i].name, ls[j].name) }

  predicate SameLabels(a: seq<Label>, b: seq<Label>) { (forall l | l in a :: l in b) && (forall l | l in b :: l in a) }

  /** A set of labels with distinct names has one sorted listing. */
  lemma {:induction false} OneListing(a: seq<Label>, b: seq<Label>)
    requires Sorted(a) && Sorted(b) && SameLabels(a, b)
    ensures a == b
    decreases |a|
  {
    HeadIn(a);
    HeadIn(b);
    if a != [] {
      HeadIsLeast(a, b);
      var x, y := a[1..], b[1..];
      forall l | l in x ensures l in y { Rest(a, b, l); }
      forall l | l in y ensures l in x { Rest(b, a, l); }
      OneListing(x, y);
      assert a == [a[0]] + x && b == [b[0]] + y;
    }
  }

  lemma HeadIn(a: seq<Label>)
    ensures a == [] || a[0] in a
  {
  }

  lemma HeadIsLeast(a: seq<Label>, b: seq<Label>)
    requires Sorted(a) && Sorted(b) && a != [] && b != [] && a[0] in b && b[0] in a
    ensures a[0] == b[0]
  {
    var i :| 0 <= i < |b| && b[i] == a[0];
    var j :| 0 <= j < |a| && a[j] == b[0];
    LessTotal(a[0].name, b[0].name);
  }

  lemma Rest(a: seq<Label>, b: seq<Label>, l: Label)
    requires Sorted(a) && SameLabels(a, b) && a != [] && b != [] && a[0] == b[0] && l in a[1..]
    ensures l in b[1..]
  {
    var i :| 0 <= i < |a[1..]| && a[1..][i] == l;
    LessTotal(a[0].name, l.name);
    assert a[i + 1] == l && l in b;
    var j :| 0 <= j < |b| && b[j] == l;
    assert b[1..][j - 1] == l;
  }

  // ---- different series have different keys ----

  predicate NameChar(c: char) { 'a' <= c <= 'z' || 'A' <= c <= 'Z' || '0' <= c <= '9' || c == '_' || c == ':' }

  predicate ValidMetric(s: string) { 0 < |s| < 64 && !('0' <= s[0] <= '9') && forall c | c in s :: NameChar(c) }

  predicate ValidLabel(s: string) {
    0 < |s| < 32 && !('0' <= s[0] <= '9') && forall c | c in s :: NameChar(c) && c != ':'
  }

  lemma Peel(a: string, c: char, x: string)
    ensures var s := a + [c] + x;
      s[0] == (if a == [] then c else a[0]) && s[1..] == if a == [] then x else a[1..] + [c] + x
    ensures a == [] || (a[0] in a && a == [a[0]] + a[1..])
  {
  }

  /** Up to the first c of both texts they agree, and so do the rests. */
  lemma {:induction false} SplitAt(a: string, x: string, b: string, y: string, c: char)
    requires c !in a && c !in b && a + [c] + x == b + [c] + y
    ensures a == b && x == y
    decreases |a|
  {
    Peel(a, c, x);
    Peel(b, c, y);
    if a != [] && b != [] { SplitAt(a[1..], x, b[1..], y, c); }
  }

  /** How one byte of a value is written. */
  function Unit(c: char): string {
    if c == '\n' then ['\\', 'n'] else if c == '\\' || c == '"' then ['\\', c] else [c]
  }

  /** The first unit of an escaped value, before its quote. */
  lemma FirstUnit(v: string, x: string)
    ensures var s := Escape(v) + ['"'] + x;
      if v == [] then s[0] == '"' && s[1..] == x
      else s == Unit(v[0]) + (Escape(v[1..]) + ['"'] + x) && v == [v[0]] + v[1..]
  {
    if v != [] { Regroup(Unit(v[0]), Escape(v[1..]), ['"'], x); }
  }

  lemma Regroup(a: string, b: string, c: string, d: string)
    ensures a + b + c + d == a + (b + c + d)
  {
  }

  lemma UnitsTell(c: char, x: string, d: char, y: string)
    requires Unit(c) + x == Unit(d) + y && x != [] && y != []
    ensures c == d && x == y
  {
    var s, t := Unit(c) + x, Unit(d) + y;
    assert s[0] == Unit(c)[0] && t[0] == Unit(d)[0];
    assert s[1] == (if |Unit(c)| == 2 then Unit(c)[1] else x[0]) && t[1] == if |Unit(d)| == 2 then Unit(d)[1] else y[0];
    assert x == s[|Unit(c)|..] && y == t[|Unit(d)|..];
  }

  lemma NotQuote(c: char, x: string)
    ensures (Unit(c) + x)[0] != '"'
  {
  }

  /** An escaped value ends at its quote, and tells the value. */
  lemma {:induction false} EscapeTells(v: string, x: string, w: string, y: string)
    requires Escape(v) + ['"'] + x == Escape(w) + ['"'] + y
    ensures v == w && x == y
    decreases |v|
  {
    FirstUnit(v, x);
    FirstUnit(w, y);
    if v != [] && w != [] {
      UnitsTell(v[0], Escape(v[1..]) + ['"'] + x, w[0], Escape(w[1..]) + ['"'] + y);
      EscapeTells(v[1..], x, w[1..], y);
    } else if v != [] {
      NotQuote(v[0], Escape(v[1..]) + ['"'] + x);
    } else if w != [] {
      NotQuote(w[0], Escape(w[1..]) + ['"'] + y);
    }
  }

  // ---- different series have different keys, continued over the labels ----

  predicate ValidLabels(ls: seq<Label>) { forall l | l in ls :: ValidLabel(l.name) }

  /** One label tells its name and value and leaves the rest. */
  lemma LabelTells(l: Label, x: string, k: Label, y: string)
    requires ValidLabel(l.name) && ValidLabel(k.name) && LabelText(l) + x == LabelText(k) + y
    ensures l == k && x == y
  {
    LabelParts(l, x);
    LabelParts(k, y);
    var p, q := ['"'] + (Escape(l.value) + ['"'] + x), ['"'] + (Escape(k.value) + ['"'] + y);
    SplitAt(l.name, p, k.name, q, '=');
    assert p[1..] == Escape(l.value) + ['"'] + x && q[1..] == Escape(k.value) + ['"'] + y;
    EscapeTells(l.value, x, k.value, y);
  }

  lemma LabelParts(l: Label, x: string)
    ensures LabelText(l) + x == l.name + ['='] + (['"'] + (Escape(l.value) + ['"'] + x))
    ensures ValidLabel(l.name) ==> '=' !in l.name
  {
    var n, e := l.name, Escape(l.value);
    assert n + ['=', '"'] == n + ['='] + ['"'];
    assert n + ['='] + ['"'] + e + ['"'] + x == n + ['='] + (['"'] + (e + ['"'] + x));
  }

  /** The rest of a list of labels, behind the ones already read. */
  lemma {:induction false} LabelsTell(a: seq<Label>, b: seq<Label>, first: bool)
    requires ValidLabels(a) && ValidLabels(b) && LabelsText(a, first) + "}" == LabelsText(b, first) + "}"
    requires first ==> a != [] && b != []
    ensures a == b
    decreases |a|
  {
    if a != [] && b != [] {
      var x, y := LabelsText(a[1..], false) + "}", LabelsText(b[1..], false) + "}";
      FirstLabel(a, first);
      FirstLabel(b, first);
      Cancel(if first then [] else [','], LabelText(a[0]) + x, LabelText(b[0]) + y);
      LabelTells(a[0], x, b[0], y);
      LabelsTell(a[1..], b[1..], false);
      assert a == [a[0]] + a[1..] && b == [b[0]] + b[1..];
    } else if a != [] {
      CommaFirst(a);
    } else if b != [] {
      CommaFirst(b);
    }
  }

  lemma Cancel(a: string, x: string, y: string)
    requires a + x == a + y
    ensures x == y
  {
    assert x == (a + x)[|a|..] && y == (a + y)[|a|..];
  }

  lemma FirstLabel(a: seq<Label>, first: bool)
    requires a != []
    ensures var sep := if first then [] else [','];
      LabelsText(a, first) + "}" == sep + (LabelText(a[0]) + (LabelsText(a[1..], false) + "}"))
    ensures ValidLabels(a) ==> ValidLabel(a[0].name) && ValidLabels(a[1..])
  {
    Regroup(if first then [] else [','], LabelText(a[0]), LabelsText(a[1..], false), "}");
    assert LabelText(a[0]) + LabelsText(a[1..], false) + "}" == LabelText(a[0]) + (LabelsText(a[1..], false) + "}");
  }

  lemma CommaFirst(a: seq<Label>)
    requires a != []
    ensures (LabelsText(a, false) + "}")[0] == ',' && (LabelsText([], false) + "}")[0] == '}'
  {
    FirstLabel(a, false);
  }

  /** For one pool, two series with the same key have the same name and the same labels. */
  lemma KeysDiffer(name: string, a: seq<Label>, other: string, b: seq<Label>, pool: string)
    requires ValidMetric(name) && ValidMetric(other) && ValidLabels(a) && ValidLabels(b)
    requires KeyText(name, pool, a) == KeyText(other, pool, b)
    ensures name == other && a == b
  {
    BraceEnds(name, pool, a);
    BraceEnds(other, pool, b);
    if (pool != [] || a != []) && (pool != [] || b != []) {
      var x := PoolText(pool) + (LabelsText(a, pool == []) + "}");
      var y := PoolText(pool) + (LabelsText(b, pool == []) + "}");
      SplitAt(name, x, other, y, '{');
      assert x[|PoolText(pool)|..] == LabelsText(a, pool == []) + "}";
      assert y[|PoolText(pool)|..] == LabelsText(b, pool == []) + "}";
      LabelsTell(a, b, pool == []);
    }
  }

  lemma BraceEnds(name: string, pool: string, a: seq<Label>)
    requires ValidMetric(name)
    ensures '{' !in name
    ensures if pool == [] && a == [] then KeyText(name, pool, a) == name && '{' !in KeyText(name, pool, a)
      else
        && KeyText(name, pool, a) == name + ['{'] + (PoolText(pool) + (LabelsText(a, pool == []) + "}"))
        && '{' in KeyText(name, pool, a)
  {
    if pool != [] || a != [] {
      var k := name + "{" + PoolText(pool) + LabelsText(a, pool == []) + "}";
      assert k == name + ['{'] + (PoolText(pool) + (LabelsText(a, pool == []) + "}"));
      assert k[|name|] == '{';
    }
  }

  // ---- the buffer ----

  /** snprintf of a text at pos: it fits with its NUL, or the call fails. */
  method Print(out: array<char>, pos: nat, s: string) returns (ok: bool, next: nat)
    requires pos <= out.Length
    modifies out
    ensures ok == (pos + |s| < out.Length) && (ok ==> next == pos + |s|)
    ensures out[..pos] == old(out[..pos]) && (ok ==> out[..next] == old(out[..pos]) + s)
  {
    next := pos;
    var room := out.Length - pos;
    if room == 0 {
      return false, pos;
    }
    var i := 0;
    while i < |s| && i < room - 1
      invariant i <= |s| && i <= room - 1 && out[..pos + i] == old(out[..pos]) + s[..i]
    {
      out[pos + i] := s[i];
      i := i + 1;
    }
    out[pos + i] := '\0';
    ok := |s| < room;
    next := pos + |s|;
    assert out[..pos] == out[..pos + i][..pos];
    if ok { assert s[..i] == s; }
  }

  /** One byte, with room left for the NUL. */
  method Put(out: array<char>, pos: nat, c: char) returns (ok: bool, next: nat)
    requires pos < out.Length
    modifies out
    ensures ok == (pos + 1 < out.Length) && next == pos + (if ok then 1 else 0)
    ensures out[..next] == old(out[..pos]) + if ok then [c] else []
  {
    next := pos;
    ok := pos + 1 < out.Length;
    if ok {
      out[pos] := c;
      next := pos + 1;
    }
  }

  method PutUnit(out: array<char>, pos: nat, u: string) returns (ok: bool, next: nat)
    requires pos < out.Length && 1 <= |u| <= 2
    modifies out
    ensures ok == (pos + |u| < out.Length) && next == pos + (if ok then |u| else 0)
    ensures out[..next] == old(out[..pos]) + if ok then u else []
  {
    next := pos;
    ok := pos + |u| < out.Length;
    if ok {
      out[pos] := u[0];
      if |u| == 2 {
        out[pos + 1] := u[1];
      }
      next := pos + |u|;
    }
  }

  /** The escaped value, byte by byte. */
  method PutEscaped(out: array<char>, pos: nat, v: string) returns (ok: bool, next: nat)
    requires pos < out.Length
    modifies out
    ensures ok == (pos + |Escape(v)| < out.Length)
    ensures ok ==> next == pos + |Escape(v)| && out[..next] == old(out[..pos]) + Escape(v)
  {
    next := pos;
    var i := 0;
    ok := true;
    assert v[0..] == v;
    while i < |v|
      invariant i <= |v| && pos <= next < out.Length && ok
      invariant pos + |Escape(v)| == next + |Escape(v[i..])|
      invariant out[..next] + Escape(v[i..]) == old(out[..pos]) + Escape(v)
      decreases |v| - i
    {
      NextUnit(v, i, out[..next]);
      ok, next := PutUnit(out, next, Unit(v[i]));
      if !ok {
        return;
      }
      i := i + 1;
    }
    assert v[i..] == [];
  }

  lemma NextUnit(v: string, i: nat, before: string)
    requires i < |v|
    ensures Escape(v[i..]) == Unit(v[i]) + Escape(v[i + 1..])
    ensures before + Unit(v[i]) + Escape(v[i + 1..]) == before + Escape(v[i..])
  {
    assert v[i..][1..] == v[i + 1..];
  }

  // ---- the order of the labels ----

  predicate NamesDiffer(ls: seq<Label>) { forall i, j | 0 <= i < j < |ls| :: ls[i].name != ls[j].name }

  function Insert(l: Label, ls: seq<Label>): seq<Label> {
    if ls == [] then [l] else if Less(l.name, ls[0].name) then [l] + ls else [ls[0]] + Insert(l, ls[1..])
  }

  /** The labels by name. */
  function Listing(ls: seq<Label>): seq<Label> { if ls == [] then [] else Insert(ls[0], Listing(ls[1..])) }

  lemma {:induction false} InsertSorts(l: Label, ls: seq<Label>)
    requires Sorted(ls) && forall k | k in ls :: k.name != l.name
    ensures Sorted(Insert(l, ls)) && forall k :: k in Insert(l, ls) <==> k == l || k in ls
    decreases |ls|
  {
    if ls != [] {
      assert ls[0] in ls && ls == [ls[0]] + ls[1..];
      LessTotal(l.name, ls[0].name);
      if Less(l.name, ls[0].name) {
        forall j | 0 < j < |ls| ensures Less(l.name, ls[j].name) { LessTrans(l.name, ls[0].name, ls[j].name); }
      } else {
        var rest := Insert(l, ls[1..]);
        InsertSorts(l, ls[1..]);
        forall j | 0 <= j < |rest| ensures Less(ls[0].name, rest[j].name) {
          assert rest[j] in rest;
          if rest[j] != l { var i :| 0 <= i < |ls[1..]| && ls[1..][i] == rest[j]; assert ls[i + 1] == rest[j]; }
        }
      }
    }
  }

  lemma {:induction false} ListingSorts(ls: seq<Label>)
    requires NamesDiffer(ls)
    ensures Sorted(Listing(ls)) && SameLabels(ls, Listing(ls))
    decreases |ls|
  {
    if ls != [] {
      ListingSorts(ls[1..]);
      forall k | k in Listing(ls[1..]) ensures k.name != ls[0].name {
        var i :| 0 <= i < |ls[1..]| && ls[1..][i] == k;
        assert ls[i + 1] == k;
      }
      InsertSorts(ls[0], Listing(ls[1..]));
      assert ls == [ls[0]] + ls[1..];
    }
  }

  /** The order the labels were given in does not matter. */
  lemma AnyOrder(name: string, pool: string, a: seq<Label>, b: seq<Label>)
    requires NamesDiffer(a) && NamesDiffer(b) && SameLabels(a, b)
    ensures KeyText(name, pool, Listing(a)) == KeyText(name, pool, Listing(b))
  {
    ListingSorts(a);
    ListingSorts(b);
    OneListing(Listing(a), Listing(b));
  }

  /** For one pool, different names or different sets of labels have different keys. */
  lemma SeriesDiffer(name: string, a: seq<Label>, other: string, b: seq<Label>, pool: string)
    requires ValidMetric(name) && ValidMetric(other) && ValidLabels(a) && ValidLabels(b) && NamesDiffer(a)
    requires NamesDiffer(b)
    requires KeyText(name, pool, Listing(a)) == KeyText(other, pool, Listing(b))
    ensures name == other && SameLabels(a, b)
  {
    ListingSorts(a);
    ListingSorts(b);
    KeysDiffer(name, Listing(a), other, Listing(b), pool);
  }

  // ---- values with a NUL ----

  /** The labels as build_key sees them: a value ends at its first NUL. */
  function Seen(ls: seq<Label>): (r: seq<Label>)
    ensures |r| == |ls| && forall i | 0 <= i < |ls| :: r[i] == Label(ls[i].name, UpToNul(ls[i].value))
  {
    seq(|ls|, i requires 0 <= i < |ls| => Label(ls[i].name, UpToNul(ls[i].value)))
  }

  /** The key of a series. */
  function Key(name: string, pool: string, labels: seq<Label>): string {
    KeyText(name, pool, Listing(Seen(labels)))
  }

  /** For one pool, two series share a key if and only if they have one name and, up to the NUL of a value, the
      same labels. */
  lemma KeysEqualIff(name: string, a: seq<Label>, other: string, b: seq<Label>, pool: string)
    requires ValidMetric(name) && ValidMetric(other)
    requires ValidLabels(a) && ValidLabels(b) && NamesDiffer(a) && NamesDiffer(b)
    ensures Key(name, pool, a) == Key(other, pool, b) <==> name == other && SameLabels(Seen(a), Seen(b))
  {
    SeenValid(a);
    SeenValid(b);
    if Key(name, pool, a) == Key(other, pool, b) { SeriesDiffer(name, Seen(a), other, Seen(b), pool); }
    if name == other && SameLabels(Seen(a), Seen(b)) { AnyOrder(name, pool, Seen(a), Seen(b)); }
  }

  lemma SeenValid(ls: seq<Label>)
    requires NamesDiffer(ls)
    ensures NamesDiffer(Seen(ls)) && (ValidLabels(ls) ==> ValidLabels(Seen(ls)))
  {
    if ValidLabels(ls) {
      forall l | l in Seen(ls) ensures ValidLabel(l.name) {
        var i :| 0 <= i < |ls| && Seen(ls)[i] == l;
        assert ls[i] in ls;
      }
    }
  }

  /** So without a NUL in any value different names or label sets have different keys. */
  lemma PlainKeysDiffer(name: string, a: seq<Label>, other: string, b: seq<Label>, pool: string)
    requires ValidMetric(name) && ValidMetric(other)
    requires ValidLabels(a) && ValidLabels(b) && NamesDiffer(a) && NamesDiffer(b) && Plain(a) && Plain(b)
    ensures Key(name, pool, a) == Key(other, pool, b) <==> name == other && SameLabels(a, b)
  {
    KeysEqualIff(name, a, other, b, pool);
    PlainSeen(a);
    PlainSeen(b);
  }

  predicate Plain(ls: seq<Label>) { forall i | 0 <= i < |ls| :: '\0' !in ls[i].value }

  lemma PlainSeen(ls: seq<Label>)
    requires Plain(ls)
    ensures Seen(ls) == ls
  {
    forall i | 0 <= i < |ls| ensures Seen(ls)[i] == ls[i] {
      assert IndexOf(ls[i].value, '\0') == |ls[i].value|;
    }
  }

  /** ["l" => "a\0b"] and ["l" => "a\0c"] share a key. */
  lemma SharedKey(name: string, pool: string)
    ensures Key(name, pool, [Label("l", ['a', '\0', 'b'])]) == Key(name, pool, [Label("l", ['a', '\0', 'c'])])
  {
    CutBehindA('b');
    CutBehindA('c');
    assert Seen([Label("l", ['a', '\0', 'b'])]) == [Label("l", "a")] == Seen([Label("l", ['a', '\0', 'c'])]);
  }

  lemma CutBehindA(c: char)
    ensures UpToNul(['a', '\0', c]) == "a"
  {
    var v := ['a', '\0', c];
    assert v[1..] == ['\0', c] && IndexOf(v[1..], '\0') == 0 && IndexOf(v, '\0') == 1;
  }

  // ---- the labels of a call ----

  /** Label names are valid and not the reserved one; values are short, and there are not too many. */
  predicate Acceptable(labels: seq<Label>) {
    && |labels| <= LABELS_MAX
    && forall i | 0 <= i < |labels| ::
         ValidLabel(labels[i].name) && labels[i].name != "pool" && |labels[i].value| <= VALUE_MAX
  }

  method ParseLabels(labels: seq<Label>) returns (ok: bool)
    ensures ok <==> Acceptable(labels)
  {
    for i := 0 to |labels|
      invariant i <= LABELS_MAX
      invariant forall k | 0 <= k < i ::
        ValidLabel(labels[k].name) && labels[k].name != "pool" && |labels[k].value| <= VALUE_MAX
    {
      if i >= LABELS_MAX || !ValidLabel(labels[i].name) || labels[i].name == "pool" || |labels[i].value| > VALUE_MAX {
        return false;
      }
    }
    return true;
  }

  // ---- the index array ----

  predicate Leq(ls: seq<Label>, x: nat, y: nat)
    requires x < |ls| && y < |ls|
  {
    !Less(ls[y].name, ls[x].name)
  }

  /** An arrangement of the numbers below n. */
  predicate Arranges(o: seq<nat>, n: nat) {
    && |o| == n && (forall i | 0 <= i < n :: o[i] < n)
    && (forall i, j | 0 <= i < j < n :: o[i] != o[j]) && (forall x: nat | x < n :: x in o)
  }

  /** Everything but the pair at (j - 1, j) is in order. */
  predicate OrderedBut(ls: seq<Label>, o: seq<nat>, j: nat)
    requires forall i | 0 <= i < |o| :: o[i] < |ls|
  {
    forall a, b | 0 <= a < b < |o| && b != j :: Leq(ls, o[a], o[b])
  }

  method Sort(ls: seq<Label>) returns (order: array<nat>)
    ensures fresh(order) && Arranges(order[..], |ls|)
    ensures forall a, b | 0 <= a < b < |ls| :: Leq(ls, order[a], order[b])
  {
    order := new nat[|ls|];
    for i := 0 to |ls|
      invariant Arranges(order[..i], i) && OrderedBut(ls, order[..i], i)
    {
      order[i] := i;
      assert order[..i + 1] == order[..i] + [i];
      SinkIn(ls, order, i);
    }
    assert order[..] == order[..|ls|];
  }

  /** Moves the last of the first i + 1 entries down to its place. */
  method SinkIn(ls: seq<Label>, order: array<nat>, i: nat)
    requires i < order.Length <= |ls| && Arranges(order[..i + 1], i + 1) && OrderedBut(ls, order[..i + 1], i)
    modifies order
    ensures Arranges(order[..i + 1], i + 1) && OrderedBut(ls, order[..i + 1], i + 1)
  {
    var j: nat := i;
    while j > 0
      invariant j <= i && Arranges(order[..i + 1], i + 1) && OrderedBut(ls, order[..i + 1], j)
    {
      ghost var o := order[..i + 1];
      if !Less(ls[order[j]].name, ls[order[j - 1]].name) {
        InPlace(ls, o, j);
        return;
      }
      Swap(ls, o, j);
      order[j - 1], order[j] := order[j], order[j - 1];
      assert order[..i + 1] == o[j - 1 := o[j]][j := o[j - 1]];
      j := j - 1;
    }
  }

  lemma LeqTrans(ls: seq<Label>, x: nat, y: nat, z: nat)
    requires x < |ls| && y < |ls| && z < |ls| && Leq(ls, x, y) && Leq(ls, y, z)
    ensures Leq(ls, x, z)
  {
    LessTotal(ls[x].name, ls[y].name);
    LessTotal(ls[y].name, ls[z].name);
    if Less(ls[z].name, ls[x].name) && ls[y].name != ls[z].name {
      LessTrans(ls[y].name, ls[z].name, ls[x].name);
    }
  }

  /** No pair is out of order any more. */
  lemma InPlace(ls: seq<Label>, o: seq<nat>, j: nat)
    requires Arranges(o, |o|) && |o| <= |ls| && OrderedBut(ls, o, j) && 0 < j < |o| && Leq(ls, o[j - 1], o[j])
    ensures OrderedBut(ls, o, |o|)
  {
    forall a | 0 <= a < j ensures Leq(ls, o[a], o[j]) {
      if a < j - 1 { LeqTrans(ls, o[a], o[j - 1], o[j]); }
    }
  }

  /** Swapping a pair that is out of order leaves only the one before it in doubt. */
  lemma Swap(ls: seq<Label>, o: seq<nat>, j: nat)
    requires Arranges(o, |o|) && |o| <= |ls| && OrderedBut(ls, o, j) && 0 < j < |o| && !Leq(ls, o[j - 1], o[j])
    ensures var p := o[j - 1 := o[j]][j := o[j - 1]]; Arranges(p, |o|) && OrderedBut(ls, p, j - 1)
  {
    var p := o[j - 1 := o[j]][j := o[j - 1]];
    LessTotal(ls[o[j]].name, ls[o[j - 1]].name);
    forall x: nat | x < |o| ensures x in p {
      assert x in o;
      var i :| 0 <= i < |o| && o[i] == x;
      assert p[if i == j then j - 1 else if i == j - 1 then j else i] == x;
    }
    forall b | j < b < |o| ensures Leq(ls, o[j], o[b]) {}
  }

  /** The labels in the order of the array are their listing. */
  lemma ArrangedIsListing(ls: seq<Label>, o: seq<nat>, sorted: seq<Label>)
    requires NamesDiffer(ls) && Arranges(o, |ls|) && forall a, b | 0 <= a < b < |ls| :: Leq(ls, o[a], o[b])
    requires |sorted| == |ls| && forall i | 0 <= i < |ls| :: sorted[i] == ls[o[i]]
    ensures sorted == Listing(ls)
  {
    forall a, b | 0 <= a < b < |ls| ensures Less(sorted[a].name, sorted[b].name) {
      LessTotal(ls[o[a]].name, ls[o[b]].name);
      assert o[a] != o[b];
    }
    forall l | l in ls ensures l in sorted {
      var x :| 0 <= x < |ls| && ls[x] == l;
      assert x in o;
      var i :| 0 <= i < |o| && o[i] == x;
      assert sorted[i] == l;
    }
    ListingSorts(ls);
    OneListing(sorted, Listing(ls));
  }

  // ---- the key ----

  /** One label, behind a comma unless it is the first thing in the braces. */
  method PutLabel(out: array<char>, pos: nat, l: Label, comma: bool) returns (ok: bool, next: nat)
    requires pos <= out.Length && (comma ==> pos < out.Length)
    modifies out
    ensures var text := (if comma then [','] else []) + LabelText(l);
      && ok == (|l.value| <= VALUE_MAX && pos + |text| < out.Length)
      && (ok ==> next == pos + |text| && out[..next] == old(out[..pos]) + text)
  {
    next := pos;
    ghost var start := out[..pos];
    if |l.value| > VALUE_MAX {
      return false, pos;
    }
    if comma {
      ok, next := Put(out, next, ',');
      if !ok {
        return;
      }
    }
    ok, next := Print(out, next, l.name + ['=', '"']);
    if !ok {
      return;
    }
    ok, next := PutEscaped(out, next, l.value);
    if !ok {
      return;
    }
    ok, next := Put(out, next, '"');
    Join(start, if comma then [','] else [], l.name + ['=', '"'], Escape(l.value), ['"']);
  }

  lemma Join(a: string, b: string, c: string, d: string, e: string)
    ensures a + b + c + d + e == a + (b + (c + d + e)) && a + b + c + d + e == a + b + (c + d + e)
    ensures a + [] == a
  {
  }

  /** The labels of the listing, one after the other. */
  method PutLabels(out: array<char>, pos: nat, ls: seq<Label>, first: bool) returns (ok: bool, next: nat)
    requires pos <= out.Length && (!first || ls == [] ==> pos < out.Length)
    modifies out
    ensures ok == ((forall l | l in ls :: |l.value| <= VALUE_MAX) && pos + |LabelsText(ls, first)| < out.Length)
    ensures ok ==> next == pos + |LabelsText(ls, first)| && out[..next] == old(out[..pos]) + LabelsText(ls, first)
  {
    next, ok := pos, true;
    ghost var text := LabelsText(ls, first);
    assert ls[0..] == ls;
    for i := 0 to |ls|
      invariant ok && pos <= next <= out.Length && (!first || i > 0 || ls == [] ==> next < out.Length)
      invariant forall k | 0 <= k < i :: |ls[k].value| <= VALUE_MAX
      invariant next + |LabelsText(ls[i..], first && i == 0)| == pos + |text|
      invariant out[..next] + LabelsText(ls[i..], first && i == 0) == old(out[..pos]) + text
    {
      NextLabel(ls, i, first && i == 0, out[..next]);
      ok, next := PutLabel(out, next, ls[i], !(first && i == 0));
      if !ok {
        return;
      }
    }
    assert ls[|ls|..] == [];
  }

  lemma NextLabel(ls: seq<Label>, i: nat, first: bool, before: string)
    requires i < |ls|
    ensures var text := (if first then [] else [',']) + LabelText(ls[i]);
      && LabelsText(ls[i..], first) == text + LabelsText(ls[i + 1..], false)
      && before + text + LabelsText(ls[i + 1..], false) == before + LabelsText(ls[i..], first)
  {
    assert ls[i..][1..] == ls[i + 1..];
  }

  function Picked(ls: seq<Label>, o: seq<nat>): seq<Label>
    requires Arranges(o, |ls|)
  {
    seq(|ls|, i requires 0 <= i < |ls| => ls[o[i]])
  }

  /** The labels in the order of their names. */
  method InOrder(labels: seq<Label>) returns (ls: seq<Label>)
    requires NamesDiffer(labels)
    ensures ls == Listing(labels)
  {
    var order := Sort(labels);
    ls := Picked(labels, order[..]);
    ArrangedIsListing(labels, order[..], ls);
  }

  /** The opening brace and the pool label. */
  method PutPool(out: array<char>, pos: nat, pool: string) returns (ok: bool, next: nat)
    requires pos < out.Length
    modifies out
    ensures ok == (pool != [] ==> pos + 1 + |PoolText(pool)| < out.Length)
    ensures ok ==> next == pos + 1 + |PoolText(pool)| <= out.Length
    ensures ok ==> out[..next] == old(out[..pos]) + "{" + PoolText(pool)
  {
    out[pos] := '{';
    next, ok := pos + 1, true;
    assert out[..next] == old(out[..pos]) + "{";
    if pool != [] {
      ok, next := Print(out, next, "pool=\"" + pool + "\"");
    }
  }

  /** What is between the braces, and the closing one. */
  method PutBraces(out: array<char>, pos: nat, pool: string, ls: seq<Label>) returns (ok: bool, next: nat)
    requires pos < out.Length && (pool != [] || ls != [])
    modifies out
    ensures var n := pos + 2 + |PoolText(pool)| + |LabelsText(ls, pool == [])|;
      && ok == ((forall l | l in ls :: |l.value| <= VALUE_MAX) && n < out.Length)
      && (ok ==> next == n && out[..n] == old(out[..pos]) + "{" + PoolText(pool) + LabelsText(ls, pool == []) + "}")
  {
    ok, next := PutPool(out, pos, pool);
    if !ok {
      return;
    }
    ok, next := PutLabels(out, next, ls, pool == []);
    if !ok {
      return;
    }
    ok, next := Put(out, next, '}');
  }

  /** Succeeds exactly when labels, values and the whole key with its NUL fit, and then writes the whole key;
      the pool label is there when the pool has a name. */
  method BuildKey(out: array<char>, name: string, pool: string, labels: seq<Label>) returns (ok: bool)
    requires NamesDiffer(labels)
    modifies out
    ensures var key := Key(name, pool, labels);
      && ok == (
        && |labels| <= LABELS_MAX && (forall l | l in Seen(labels) :: |l.value| <= VALUE_MAX)
        && |key| < out.Length)
      && (ok ==> out[..|key|] == key && out[|key|] == '\0')
  {
    if |labels| > LABELS_MAX {
      return false;
    }
    var seen := Seen(labels);
    SeenValid(labels);
    var ls := InOrder(seen);
    ListingSorts(seen);
    ListingEmpty(seen);
    if |name| >= out.Length {
      return false;
    }
    for i := 0 to |name|
      invariant out[..i] == name[..i]
    {
      out[i] := name[i];
    }
    var pos := |name|;
    assert out[..pos] == name;
    if pool != [] || |labels| > 0 {
      ok, pos := PutBraces(out, pos, pool, ls);
      if !ok {
        return;
      }
    }
    out[pos] := '\0';
    ok := true;
  }

  /** Lower-case names other than the reserved one, with values of any bytes, are accepted. */
  lemma LettersAccepted(labels: seq<Label>)
    requires |labels| <= 8
    requires forall i | 0 <= i < |labels| ::
      && 0 < |labels[i].name| < 32 && (forall c | c in labels[i].name :: 'a' <= c <= 'z' || c == '_')
      && labels[i].name != "pool" && |labels[i].value| <= 128
    ensures Acceptable(labels)
  {
    forall i | 0 <= i < |labels| ensures ValidLabel(labels[i].name) { assert labels[i].name[0] in labels[i].name; }
  }

  /** The labels of an accepted call never fail for their values. */
  lemma AcceptedFit(labels: seq<Label>)
    requires Acceptable(labels)
    ensures |labels| <= LABELS_MAX && forall l | l in Seen(labels) :: |l.value| <= VALUE_MAX
  {
  }

  lemma ListingEmpty(ls: seq<Label>)
    requires NamesDiffer(ls)
    ensures Listing(ls) == [] <==> ls == []
  {
    ListingSorts(ls);
    if ls != [] { assert ls[0] in Listing(ls); }
  }
}
