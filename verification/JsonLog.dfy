/**
 A value of the JSON access log: a client's bytes, whatever they are, written as a JSON string into a
 bounded buffer.  Valid UTF-8 is copied, every other byte is read as the code point of its number.
 */
module JsonLog {
  import opened Shared

  type Byte = n: int | 0 <= n < 256

  type Bytes = seq<Byte>

  const QUOTE: Byte := 0x22
  const BACKSLASH: Byte := 0x5C

  // ---- UTF-8, section 3 of RFC 3629 ----

  predicate Scalar(c: int) { 0 <= c <= 0x10FFFF && !(0xD800 <= c <= 0xDFFF) }

  function Encode(c: int): (u: Bytes)
    requires Scalar(c)
    ensures 1 <= |u| <= 4
  {
    if c < 0x80 then [c]
    else if c < 0x800 then [0xC0 + c / 64, 0x80 + c % 64]
    else if c < 0x1_0000 then [0xE0 + c / 4096, 0x80 + c / 64 % 64, 0x80 + c % 64]
    else [0xF0 + c / 262144, 0x80 + c / 4096 % 64, 0x80 + c / 64 % 64, 0x80 + c % 64]
  }

  /** A code point of two bytes or more is spelled out at p. */
  predicate SpelledAt(s: Bytes, p: nat, c: int) {
    Scalar(c) && c >= 0x80 && p + |Encode(c)| <= |s| && s[p..p + |Encode(c)|] == Encode(c)
  }

  // ---- the length of a sequence, as it is found ----

  /** The string ends with a NUL. */
  function At(s: Bytes, i: nat): Byte { if i < |s| then s[i] else 0 }

  predicate Continues(b: Byte) { 0x80 <= b < 0xC0 }

  /** How many bytes a first byte asks for, and the bits it holds. */
  function Lead(b: Byte): (nat, nat) {
    if 0xC2 <= b <= 0xDF then (2, b % 32)
    else if 0xE0 <= b <= 0xEF then (3, b % 16)
    else if 0xF0 <= b <= 0xF4 then (4, b % 8)
    else (0, 0)
  }

  predicate InRange(need: nat, c: int) {
    && (need == 3 ==> c >= 0x800 && !(0xD800 <= c <= 0xDFFF))
    && (need == 4 ==> 0x1_0000 <= c <= 0x10FFFF)
  }

  function Tail(s: Bytes, p: nat, i: nat, need: nat, c: nat): Option<nat>
    decreases need - i
  {
    if i >= need then Some(c)
    else if !Continues(At(s, p + i)) then None
    else Tail(s, p, i + 1, need, c * 64 + At(s, p + i) % 64)
  }

  function Decoded(s: Bytes, p: nat): Option<nat> {
    var (need, c) := Lead(At(s, p));
    if need == 0 then None
    else
      var r := Tail(s, p, 1, need, c);
      if r.None? || !InRange(need, r.value) then None else r
  }

  /** The bytes a spelled code point begins with. */
  lemma Front(s: Bytes, p: nat, c: int)
    requires SpelledAt(s, p, c)
    ensures forall i: nat | i < |Encode(c)| :: At(s, p + i) == Encode(c)[i]
  {
    forall i: nat | i < |Encode(c)| ensures At(s, p + i) == Encode(c)[i] {
      assert s[p..p + |Encode(c)|][i] == s[p + i];
    }
  }

  lemma Split3(x: int, y: int, z: int)
    requires 0 <= y < 64 && 0 <= z < 64
    ensures var e := (x * 64 + y) * 64 + z; e / 4096 == x && e / 64 % 64 == y && e % 64 == z
  {
    var e := (x * 64 + y) * 64 + z;
    Quotient(e, 4096, x, y * 64 + z);
    Quotient(e, 64, x * 64 + y, z);
    Quotient(x * 64 + y, 64, x, y);
  }

  lemma Split4(w: int, x: int, y: int, z: int)
    requires 0 <= x < 64 && 0 <= y < 64 && 0 <= z < 64
    ensures var e := ((w * 64 + x) * 64 + y) * 64 + z;
      e / 262144 == w && e / 4096 % 64 == x && e / 64 % 64 == y && e % 64 == z
  {
    var e := ((w * 64 + x) * 64 + y) * 64 + z;
    Quotient(e, 262144, w, (x * 64 + y) * 64 + z);
    Quotient(w * 64 + x, 64, w, x);
    Split3(w * 64 + x, y, z);
  }

  lemma Join(c: int)
    ensures c == (c / 4096 * 64 + c / 64 % 64) * 64 + c % 64
    ensures c == ((c / 262144 * 64 + c / 4096 % 64) * 64 + c / 64 % 64) * 64 + c % 64
  {
    assert c / 64 / 64 == c / 4096;
    assert c / 4096 / 64 == c / 262144;
  }

  lemma Tail3(s: Bytes, p: nat, x: nat)
    ensures var d: int, f: int := At(s, p + 1), At(s, p + 2);
      Tail(s, p, 1, 3, x) == if Continues(d) && Continues(f) then Some((x * 64 + d % 64) * 64 + f % 64) else None
  {
    var d: int, f: int := At(s, p + 1), At(s, p + 2);
    assert Tail(s, p, 3, 3, (x * 64 + d % 64) * 64 + f % 64) == Some((x * 64 + d % 64) * 64 + f % 64);
  }

  lemma Tail4(s: Bytes, p: nat, x: nat)
    ensures var d: int, f: int, g: int := At(s, p + 1), At(s, p + 2), At(s, p + 3);
      Tail(s, p, 1, 4, x) == if Continues(d) && Continues(f) && Continues(g)
                             then Some(((x * 64 + d % 64) * 64 + f % 64) * 64 + g % 64) else None
  {
    var d: int, f: int, g: int := At(s, p + 1), At(s, p + 2), At(s, p + 3);
    var e := ((x * 64 + d % 64) * 64 + f % 64) * 64 + g % 64;
    assert Tail(s, p, 4, 4, e) == Some(e);
    assert Tail(s, p, 3, 4, (x * 64 + d % 64) * 64 + f % 64) == if Continues(g) then Some(e) else None;
  }

  lemma TwoFound(s: Bytes, p: nat)
    requires Lead(At(s, p)).0 == 2 && Decoded(s, p).Some?
    ensures SpelledAt(s, p, Decoded(s, p).value)
  {
    var b: int, d: int := At(s, p), At(s, p + 1);
    var e := b % 32 * 64 + d % 64;
    assert Tail(s, p, 2, 2, e) == Some(e);
    Bits(d);
    Quotient(e, 64, b % 32, d % 64);
    assert b == 0xC0 + b % 32;
    assert Encode(e) == [b, d] && s[p..p + 2] == [b, d];
  }

  lemma TwoSpelled(s: Bytes, p: nat, c: int)
    requires Lead(At(s, p)).0 == 2 && SpelledAt(s, p, c)
    ensures Decoded(s, p) == Some(c)
  {
    Front(s, p, c);
    LeadTells(c);
    assert At(s, p + 0) == Encode(c)[0];
    Low6(c % 64);
    assert (0xC0 + c / 64) % 32 == c / 64;
    assert Tail(s, p, 2, 2, c) == Some(c);
  }

  lemma Encode3(b: Byte, d: Byte, f: Byte)
    requires Lead(b).0 == 3 && Continues(d) && Continues(f)
    ensures var e := (b as int % 16 * 64 + d as int % 64) * 64 + f as int % 64;
      InRange(3, e) ==> Encode(e) == [b, d, f]
  {
    Split3(b as int % 16, d as int % 64, f as int % 64);
  }

  lemma Parts3(c: int)
    requires 0x800 <= c < 0x1_0000 && Scalar(c)
    ensures var u := Encode(c);
      && |u| == 3 && Lead(u[0]).0 == 3 && Continues(u[1]) && Continues(u[2])
      && c == (u[0] as int % 16 * 64 + u[1] as int % 64) * 64 + u[2] as int % 64
  {
    Join(c);
    Low6(c / 64 % 64);
    Low6(c % 64);
    assert (0xE0 + c / 4096) % 16 == c / 4096;
  }

  lemma ThreeFound(s: Bytes, p: nat)
    requires Lead(At(s, p)).0 == 3 && Decoded(s, p).Some?
    ensures SpelledAt(s, p, Decoded(s, p).value)
  {
    var b, d, f := At(s, p), At(s, p + 1), At(s, p + 2);
    Tail3(s, p, b as int % 16);
    Encode3(b, d, f);
    assert s[p..p + 3] == [b, d, f];
  }

  lemma ThreeSpelled(s: Bytes, p: nat, c: int)
    requires Lead(At(s, p)).0 == 3 && SpelledAt(s, p, c)
    ensures Decoded(s, p) == Some(c)
  {
    Tail3(s, p, At(s, p) as int % 16);
    Front(s, p, c);
    LeadTells(c);
    assert At(s, p + 0) == Encode(c)[0];
    Parts3(c);
  }

  lemma Encode4(b: Byte, d: Byte, f: Byte, g: Byte)
    requires Lead(b).0 == 4 && Continues(d) && Continues(f) && Continues(g)
    ensures var e := ((b as int % 8 * 64 + d as int % 64) * 64 + f as int % 64) * 64 + g as int % 64;
      InRange(4, e) ==> Encode(e) == [b, d, f, g]
  {
    Split4(b as int % 8, d as int % 64, f as int % 64, g as int % 64);
    Bits(d);
    Bits(f);
    Bits(g);
    assert b == 0xF0 + b % 8;
  }

  lemma Bits(b: Byte)
    requires Continues(b)
    ensures b as int == 0x80 + b as int % 64
  {
  }

  lemma Parts4(c: int)
    requires 0x1_0000 <= c <= 0x10FFFF
    ensures var u := Encode(c);
      && |u| == 4 && Lead(u[0]).0 == 4 && Continues(u[1]) && Continues(u[2]) && Continues(u[3])
      && c == ((u[0] as int % 8 * 64 + u[1] as int % 64) * 64 + u[2] as int % 64) * 64 + u[3] as int % 64
  {
    Join(c);
    Low6(c / 4096 % 64);
    Low6(c / 64 % 64);
    Low6(c % 64);
    assert (0xF0 + c / 262144) % 8 == c / 262144;
  }

  lemma Low6(x: int)
    requires 0 <= x < 64
    ensures (0x80 + x) % 64 == x
  {
  }

  lemma FourFound(s: Bytes, p: nat)
    requires Lead(At(s, p)).0 == 4 && Decoded(s, p).Some?
    ensures SpelledAt(s, p, Decoded(s, p).value)
  {
    var b, d, f, g := At(s, p), At(s, p + 1), At(s, p + 2), At(s, p + 3);
    Tail4(s, p, b as int % 8);
    Encode4(b, d, f, g);
    assert s[p..p + 4] == [b, d, f, g];
  }

  lemma FourSpelled(s: Bytes, p: nat, c: int)
    requires Lead(At(s, p)).0 == 4 && SpelledAt(s, p, c)
    ensures Decoded(s, p) == Some(c)
  {
    Tail4(s, p, At(s, p) as int % 8);
    Front(s, p, c);
    LeadTells(c);
    assert At(s, p + 0) == Encode(c)[0];
    Parts4(c);
  }

  /** The first byte tells how many there are. */
  lemma LeadTells(c: int)
    requires Scalar(c) && c >= 0x80
    ensures Lead(Encode(c)[0]).0 == |Encode(c)|
    ensures (|Encode(c)| == 2 ==> c < 0x800)
    ensures (|Encode(c)| == 3 ==> 0x800 <= c < 0x1_0000) && (|Encode(c)| == 4 ==> c >= 0x1_0000)
  {
  }

  /** What is found at p is what is spelled there: at most one code point, and overlong forms, surrogates and
      numbers past the last code point are none. */
  lemma DecodedIff(s: Bytes, p: nat, c: int)
    ensures Decoded(s, p) == Some(c) <==> SpelledAt(s, p, c)
  {
    var need := Lead(At(s, p)).0;
    if need == 2 {
      if Decoded(s, p).Some? { TwoFound(s, p); }
      if SpelledAt(s, p, c) { TwoSpelled(s, p, c); }
    } else if need == 3 {
      if Decoded(s, p).Some? { ThreeFound(s, p); }
      if SpelledAt(s, p, c) { ThreeSpelled(s, p, c); }
    } else if need == 4 {
      if Decoded(s, p).Some? { FourFound(s, p); }
      if SpelledAt(s, p, c) { FourSpelled(s, p, c); }
    } else if SpelledAt(s, p, c) {
      Front(s, p, c);
    }
  }

  lemma DecodedSpells(s: Bytes, p: nat)
    ensures Decoded(s, p).Some? ==> SpelledAt(s, p, Decoded(s, p).value)
    ensures Decoded(s, p).Some? ==> |Encode(Decoded(s, p).value)| == Lead(At(s, p)).0
  {
    if Decoded(s, p).Some? {
      DecodedIff(s, p, Decoded(s, p).value);
      Front(s, p, Decoded(s, p).value);
    }
  }

  /** The length of the sequence at p, or 0 when there is none. */
  method Utf8Len(s: Bytes, p: nat) returns (n: nat)
    ensures n == 0 <==> forall c :: !SpelledAt(s, p, c)
    ensures n > 0 ==> exists c :: SpelledAt(s, p, c) && |Encode(c)| == n
    ensures n == if Decoded(s, p).None? then 0 else |Encode(Decoded(s, p).value)|
  {
    var (need, bits) := Lead(At(s, p));
    var c: int := bits;
    forall d ensures Decoded(s, p) == Some(d) <==> SpelledAt(s, p, d) { DecodedIff(s, p, d); }
    DecodedSpells(s, p);
    if need == 0 {
      return 0;
    }
    ghost var all := Tail(s, p, 1, need, c);
    for i := 1 to need
      invariant c >= 0 && all == Tail(s, p, i, need, c)
    {
      if !Continues(At(s, p + i)) {
        return 0;
      }
      var b: int := At(s, p + i);
      c := c * 64 + b % 64;
    }
    n := if InRange(need, c) then need else 0;
  }

  // ---- the text of a value ----

  function Hex(d: int): Byte
    requires 0 <= d < 16
  {
    if d < 10 then 0x30 + d else 0x61 + (d - 10)
  }

  /** The letter of a short escape. */
  function Letter(c: Byte): Option<Byte> {
    if c == QUOTE || c == BACKSLASH then Some(c)
    else if c == 8 then Some(0x62)
    else if c == 12 then Some(0x66)
    else if c == 10 then Some(0x6E)
    else if c == 13 then Some(0x72)
    else if c == 9 then Some(0x74)
    else None
  }

  /** One byte that is not part of a sequence. */
  function Unit(c: Byte): (u: Bytes)
    ensures 1 <= |u| <= 6
  {
    if Letter(c).Some? then [BACKSLASH, Letter(c).value]
    else if c < 0x20 || c >= 0x7F then [BACKSLASH, 0x75, 0x30, 0x30, Hex(c / 16), Hex(c % 16)]
    else [c]
  }

  /** One unit: the bytes it takes, what is written for them, and the code point they stand for. */
  datatype Cell = Cell(raw: Bytes, text: Bytes, point: int)

  predicate Sequence(s: Bytes, p: nat)
    requires p < |s|
  {
    s[p] >= 0x80 && Decoded(s, p).Some?
  }

  function CellAt(s: Bytes, p: nat): (c: Cell)
    requires p < |s|
    ensures 1 <= |c.raw| <= |s| - p && c.raw == s[p..p + |c.raw|] && 1 <= |c.text| <= 6
  {
    DecodedSpells(s, p);
    if Sequence(s, p) then
      var c := Decoded(s, p).value;
      Cell(Encode(c), Encode(c), c)
    else Cell([s[p]], Unit(s[p]), s[p])
  }

  function Cells(s: Bytes, p: nat): seq<Cell>
    requires p <= |s|
    decreases |s| - p
  {
    if p == |s| then [] else [CellAt(s, p)] + Cells(s, p + |CellAt(s, p).raw|)
  }

  function Raws(cs: seq<Cell>): Bytes { if cs == [] then [] else cs[0].raw + Raws(cs[1..]) }

  function Texts(cs: seq<Cell>): Bytes { if cs == [] then [] else cs[0].text + Texts(cs[1..]) }

  function Points(cs: seq<Cell>): seq<int> { if cs == [] then [] else [cs[0].point] + Points(cs[1..]) }

  /** The units up to the first one that does not fit. */
  function Fitting(cs: seq<Cell>, room: int): seq<Cell> {
    if cs == [] || |cs[0].text| > room then [] else [cs[0]] + Fitting(cs[1..], room - |cs[0].text|)
  }

  /** What the bytes mean: code points. */
  function Meaning(s: Bytes): seq<int> { Points(Cells(s, 0)) }

  /** What is written of the bytes when nothing is cut. */
  function Whole(s: Bytes): Bytes { Texts(Cells(s, 0)) }

  function Shown(s: Bytes, room: int): seq<Cell> { Fitting(Cells(s, 0), room) }

  /** These are the units from p on. */
  ghost predicate From(cs: seq<Cell>, s: Bytes, p: nat) {
    forall n: nat {:trigger Look(n)} :: Look(n) ==> p <= |s| && cs == Cells(s, p)
  }

  lemma FirstCell(cs: seq<Cell>, s: Bytes, p: nat)
    requires From(cs, s, p) && p < |s|
    ensures cs != [] && cs[0] == CellAt(s, p) && From(cs[1..], s, p + |cs[0].raw|)
    ensures 1 <= |cs[0].raw| <= |s| - p
  {
    assert Look(0);
  }

  lemma AllCells(s: Bytes)
    ensures From(Cells(s, 0), s, 0)
  {
  }

  lemma NoCells(cs: seq<Cell>, s: Bytes)
    requires From(cs, s, |s|)
    ensures cs == []
  {
    assert Look(0);
  }

  /** The units are the text, cut up. */
  lemma {:induction false} CellsCut(s: Bytes, p: nat)
    requires p <= |s|
    ensures Raws(Cells(s, p)) == s[p..]
    decreases |s| - p
  {
    if p < |s| {
      var c := CellAt(s, p);
      var q := p + |c.raw|;
      CellsCut(s, q);
      CellsMore(c, Cells(s, q));
      assert s[p..] == s[p..q] + s[q..];
    }
  }

  lemma CellsMore(c: Cell, cs: seq<Cell>)
    ensures Raws([c] + cs) == c.raw + Raws(cs) && Texts([c] + cs) == c.text + Texts(cs)
    ensures Points([c] + cs) == [c.point] + Points(cs)
  {
    assert ([c] + cs)[1..] == cs;
  }

  /** The fitting units are the first ones, they fit, and all do exactly when the whole text does. */
  lemma {:induction false} FittingIs(cs: seq<Cell>, room: int)
    requires room >= 0
    ensures Fitting(cs, room) <= cs && |Texts(Fitting(cs, room))| <= room
    ensures Fitting(cs, room) == cs <==> |Texts(cs)| <= room
    ensures var k := |Fitting(cs, room)|; k < |cs| ==> |Texts(Fitting(cs, room))| + |cs[k].text| > room
    decreases |cs|
  {
    if cs != [] && |cs[0].text| <= room {
      var rest := Fitting(cs[1..], room - |cs[0].text|);
      FittingIs(cs[1..], room - |cs[0].text|);
      CellsMore(cs[0], rest);
      assert cs == [cs[0]] + cs[1..];
    }
  }

  lemma {:induction false} PointsPrefix(cs: seq<Cell>, k: nat)
    requires k <= |cs|
    ensures |Points(cs)| == |cs| && Points(cs[..k]) == Points(cs)[..k]
    decreases |cs|
  {
    if k > 0 {
      PointsPrefix(cs[1..], k - 1);
      assert cs[..k] == [cs[0]] + cs[1..][..k - 1];
      CellsMore(cs[0], cs[1..][..k - 1]);
    } else if cs != [] {
      PointsPrefix(cs[1..], 0);
    }
  }

  // ---- when two values mean the same ----

  predicate AllScalar(ps: seq<int>) { forall i | 0 <= i < |ps| :: Scalar(ps[i]) }

  /** Code points in UTF-8. */
  function Spell(ps: seq<int>): Bytes
    requires AllScalar(ps)
  {
    if ps == [] then [] else Encode(ps[0]) + Spell(ps[1..])
  }

  lemma CellScalar(s: Bytes, p: nat)
    requires p < |s|
    ensures Scalar(CellAt(s, p).point)
  {
    DecodedSpells(s, p);
  }

  lemma ScalarsMore(c: Cell, cs: seq<Cell>)
    requires Scalar(c.point) && AllScalar(Points(cs))
    ensures AllScalar(Points([c] + cs))
  {
    CellsMore(c, cs);
  }

  lemma {:induction false} ScalarsFrom(cs: seq<Cell>, s: Bytes, p: nat)
    requires From(cs, s, p) && p <= |s|
    ensures AllScalar(Points(cs))
    decreases |s| - p
  {
    if p < |s| {
      FirstCell(cs, s, p);
      CellScalar(s, p);
      ScalarsFrom(cs[1..], s, p + |cs[0].raw|);
      ScalarsMore(cs[0], cs[1..]);
      assert cs == [cs[0]] + cs[1..];
    } else {
      NoCells(cs, s);
    }
  }

  lemma MeaningScalar(s: Bytes)
    ensures AllScalar(Meaning(s))
  {
    AllCells(s);
    ScalarsFrom(Cells(s, 0), s, 0);
  }

  /** A code point that is spelled out is read as one unit. */
  lemma ReadBack(s: Bytes, p: nat, c: int)
    requires Scalar(c) && p + |Encode(c)| <= |s| && s[p..p + |Encode(c)|] == Encode(c)
    ensures CellAt(s, p).point == c && |CellAt(s, p).raw| == |Encode(c)|
  {
    assert s[p..p + |Encode(c)|][0] == s[p];
    DecodedIff(s, p, c);
    if c >= 0x80 { LeadTells(c); }
  }

  /** x is what is left of s at p. */
  ghost predicate Left(s: Bytes, p: nat, x: Bytes) {
    forall n: nat {:trigger Look(n)} :: Look(n) ==> p <= |s| && s[p..] == x
  }

  /** These are the code points from p on. */
  ghost predicate ReadAs(s: Bytes, p: nat, ps: seq<int>) {
    forall n: nat {:trigger Look(n)} :: Look(n) ==> p <= |s| && Points(Cells(s, p)) == ps
  }

  lemma NothingLeft(s: Bytes, p: nat)
    requires Left(s, p, [])
    ensures ReadAs(s, p, [])
  {
    assert Look(0);
  }

  lemma LeftBehind(s: Bytes, p: nat, u: Bytes, rest: Bytes)
    requires Left(s, p, u + rest)
    ensures Left(s, p + |u|, rest) && p + |u| <= |s| && s[p..p + |u|] == u
  {
    assert Look(0);
    assert s[p..p + |u|] == s[p..][..|u|] && s[p + |u|..] == s[p..][|u|..];
  }

  /** The unit at p. */
  ghost predicate UnitIs(s: Bytes, p: nat, c: int, n: nat) {
    forall m: nat {:trigger Look(m)} :: Look(m) ==> p < |s| && CellAt(s, p).point == c && |CellAt(s, p).raw| == n
  }

  lemma OneRead(s: Bytes, p: nat, c: int, n: nat, qs: seq<int>)
    requires UnitIs(s, p, c, n) && ReadAs(s, p + n, qs)
    ensures ReadAs(s, p, [c] + qs)
  {
    assert Look(0);
    PointsFirst(s, p);
  }

  lemma UnitRead(s: Bytes, p: nat, c: int, rest: Bytes)
    requires Scalar(c) && Left(s, p, Encode(c) + rest)
    ensures UnitIs(s, p, c, |Encode(c)|) && Left(s, p + |Encode(c)|, rest)
  {
    LeftBehind(s, p, Encode(c), rest);
    ReadBack(s, p, c);
  }

  lemma PointsFirst(s: Bytes, p: nat)
    requires p < |s|
    ensures var d := CellAt(s, p); Points(Cells(s, p)) == [d.point] + Points(Cells(s, p + |d.raw|))
  {
    var d := CellAt(s, p);
    CellsMore(d, Cells(s, p + |d.raw|));
  }

  lemma {:induction false} SpelledFrom(s: Bytes, p: nat, ps: seq<int>)
    requires AllScalar(ps) && Left(s, p, Spell(ps))
    ensures ReadAs(s, p, ps)
    decreases |ps|
  {
    if ps == [] {
      NothingLeft(s, p);
    } else {
      var n := |Encode(ps[0])|;
      UnitRead(s, p, ps[0], Spell(ps[1..]));
      SpelledFrom(s, p + n, ps[1..]);
      OneRead(s, p, ps[0], n, ps[1..]);
      assert ps == [ps[0]] + ps[1..];
    }
  }

  /** Valid UTF-8 means what it spells. */
  lemma SpelledMeans(ps: seq<int>)
    requires AllScalar(ps)
    ensures Meaning(Spell(ps)) == ps
  {
    SpelledFrom(Spell(ps), 0, ps);
    assert Look(0);
  }

  /** The value in UTF-8: its sequences as they are, every stray byte as the code point of its number. */
  function Utf8(s: Bytes): Bytes {
    MeaningScalar(s);
    Spell(Meaning(s))
  }

  /** Two values mean the same exactly when they are the same in UTF-8. */
  lemma MeaningIff(s: Bytes, t: Bytes)
    ensures Meaning(s) == Meaning(t) <==> Utf8(s) == Utf8(t)
  {
    MeaningScalar(s);
    MeaningScalar(t);
    SpelledMeans(Meaning(s));
    SpelledMeans(Meaning(t));
  }

  ghost predicate ValidUtf8(s: Bytes) { exists ps :: AllScalar(ps) && Spell(ps) == s }

  /** Values in valid UTF-8, and no others, are their own UTF-8; so two of them mean the same only when they
      are equal. */
  lemma Utf8Stays(s: Bytes)
    ensures ValidUtf8(s) <==> Utf8(s) == s
  {
    MeaningScalar(s);
    if ValidUtf8(s) {
      var ps :| AllScalar(ps) && Spell(ps) == s;
      SpelledMeans(ps);
    }
  }

  /** A stray byte is not told from the sequence that spells its number. */
  lemma OneByteTwoBytes(b: Byte)
    requires b >= 0x80
    ensures [b] != Encode(b) && Meaning([b]) == Meaning(Encode(b)) == [b]
  {
    assert Spell([b]) == Encode(b);
    SpelledMeans([b]);
    assert !Sequence([b], 0) by { StrayAlone(b); }
    assert Cells([b], 0) == [CellAt([b], 0)] + Cells([b], 1) == [Cell([b], Unit(b), b)];
    CellsMore(CellAt([b], 0), []);
  }

  lemma StrayAlone(b: Byte)
    ensures Decoded([b], 0).None?
  {
    if Decoded([b], 0).Some? { DecodedSpells([b], 0); }
  }

  // ---- it is JSON, section 7 of RFC 8259 ----

  /** Escapes of one letter, the ones JSON has. */
  predicate Short(letter: Byte, c: int) {
    || (letter == QUOTE && c == 0x22) || (letter == BACKSLASH && c == 0x5C) || (letter == 0x2F && c == 0x2F)
    || (letter == 0x62 && c == 8) || (letter == 0x66 && c == 12) || (letter == 0x6E && c == 10)
    || (letter == 0x72 && c == 13) || (letter == 0x74 && c == 9)
  }

  predicate IsHex(b: Byte) { 0x30 <= b <= 0x39 || 0x41 <= b <= 0x46 || 0x61 <= b <= 0x66 }

  function HexDigit(b: Byte): int
    requires IsHex(b)
  {
    if b <= 0x39 then b - 0x30 else if b <= 0x46 then b - 0x41 + 10 else b - 0x61 + 10
  }

  /** One character of a JSON string: unescaped, a short escape, or four hexadecimal digits. */
  predicate Spells(u: Bytes, c: int) {
    && Scalar(c)
    && (|| (u == Encode(c) && c >= 0x20 && c != 0x22 && c != 0x5C)
        || (|u| == 2 && u[0] == BACKSLASH && Short(u[1], c))
        || (|u| == 6 && u[0] == BACKSLASH && u[1] == 0x75 && (forall i | 2 <= i < 6 :: IsHex(u[i]))
            && c == 4096 * HexDigit(u[2]) + 256 * HexDigit(u[3]) + 16 * HexDigit(u[4]) + HexDigit(u[5])))
  }

  /** The characters between the quotes are these code points. */
  ghost predicate JsonText(b: Bytes, cs: seq<int>)
    decreases |cs|
  {
    if cs == [] then b == [] else exists n :: 0 <= n <= |b| && Spells(b[..n], cs[0]) && JsonText(b[n..], cs[1..])
  }

  lemma UnitSpells(c: Byte)
    requires c != 0
    ensures Spells(Unit(c), c)
  {
    if Letter(c).None? && (c < 0x20 || c >= 0x7F) {
      var u := Unit(c);
      assert HexDigit(u[4]) == c / 16 && HexDigit(u[5]) == c % 16;
    }
  }

  lemma CellSpells(s: Bytes, p: nat)
    requires p < |s| && s[p] != 0
    ensures Spells(CellAt(s, p).text, CellAt(s, p).point)
  {
    DecodedSpells(s, p);
    if !Sequence(s, p) { UnitSpells(s[p]); }
  }

  predicate AllSpell(cs: seq<Cell>) { forall i | 0 <= i < |cs| :: Spells(cs[i].text, cs[i].point) }

  lemma FirstSpells(cs: seq<Cell>, s: Bytes, p: nat)
    requires From(cs, s, p) && p < |s| && 0 !in s
    ensures cs != [] && Spells(cs[0].text, cs[0].point)
    ensures From(cs[1..], s, p + |cs[0].raw|) && 1 <= |cs[0].raw| <= |s| - p
  {
    FirstCell(cs, s, p);
    CellSpells(s, p);
  }

  lemma {:induction false} CellsSpell(cs: seq<Cell>, s: Bytes, p: nat)
    requires From(cs, s, p) && p <= |s| && 0 !in s
    ensures AllSpell(cs)
    decreases |s| - p
  {
    if p < |s| {
      FirstSpells(cs, s, p);
      CellsSpell(cs[1..], s, p + |cs[0].raw|);
      assert cs == [cs[0]] + cs[1..];
      SpellMore(cs[0], cs[1..]);
    } else {
      NoCells(cs, s);
    }
  }

  lemma SpellMore(c: Cell, cs: seq<Cell>)
    requires Spells(c.text, c.point) && AllSpell(cs)
    ensures AllSpell([c] + cs)
  {
  }

  /** Units that spell their code points make up a JSON text. */
  lemma {:induction false} TextsAreJson(cs: seq<Cell>)
    requires AllSpell(cs)
    ensures JsonText(Texts(cs), Points(cs))
    decreases |cs|
  {
    if cs != [] {
      TextsAreJson(cs[1..]);
      JsonMore(cs[0].text, cs[0].point, Texts(cs[1..]), Points(cs[1..]));
    }
  }

  lemma JsonMore(u: Bytes, c: int, rest: Bytes, cs: seq<int>)
    requires Spells(u, c) && JsonText(rest, cs)
    ensures JsonText(u + rest, [c] + cs)
  {
    var b := u + rest;
    assert b[..|u|] == u && b[|u|..] == rest && ([c] + cs)[1..] == cs;
  }

  // ---- a JSON text means one thing ----

  lemma EncodeTells(u: Bytes, w: Bytes, c: int, d: int)
    requires Scalar(c) && Scalar(d) && u == Encode(c) && w == Encode(d) && (u <= w || w <= u)
    ensures c == d
  {
    assert u[0] == w[0];
    assert |u| == |w|;
    assert u == w;
    Join(c);
    Join(d);
  }

  lemma SpellsTells(u: Bytes, w: Bytes, c: int, d: int)
    requires Spells(u, c) && Spells(w, d) && (u <= w || w <= u)
    ensures u == w && c == d
  {
    assert u[0] == w[0];
    if u[0] == BACKSLASH {
      assert u[1] == w[1];
    } else {
      EncodeTells(u, w, c, d);
    }
  }

  lemma {:induction false} OneMeaning(b: Bytes, cs: seq<int>, ds: seq<int>)
    requires JsonText(b, cs) && JsonText(b, ds)
    ensures cs == ds
    decreases |cs|
  {
    if cs != [] && ds != [] {
      var n :| 0 <= n <= |b| && Spells(b[..n], cs[0]) && JsonText(b[n..], cs[1..]);
      var m :| 0 <= m <= |b| && Spells(b[..m], ds[0]) && JsonText(b[m..], ds[1..]);
      Prefixes(b, n, m);
      SpellsTells(b[..n], b[..m], cs[0], ds[0]);
      assert n == |b[..n]| == |b[..m]| == m;
      OneMeaning(b[n..], cs[1..], ds[1..]);
    }
  }

  lemma Prefixes(b: Bytes, n: nat, m: nat)
    requires n <= |b| && m <= |b|
    ensures b[..n] <= b[..m] || b[..m] <= b[..n]
  {
  }

  // ---- nothing is lost ----

  /** Reads the client's bytes back: escapes undone, everything else as it is. */
  function Restored(b: Bytes): Bytes
    decreases |b|
  {
    if b == [] then []
    else if b[0] != BACKSLASH then [b[0]] + Restored(b[1..])
    else if |b| >= 6 && b[1] == 0x75 && IsHex(b[4]) && IsHex(b[5]) then
      [(16 * HexDigit(b[4]) + HexDigit(b[5])) as Byte] + Restored(b[6..])
    else if |b| >= 2 then [Unlettered(b[1])] + Restored(b[2..])
    else b
  }

  function Unlettered(b: Byte): Byte {
    if b == 0x62 then 8 else if b == 0x66 then 12 else if b == 0x6E then 10 else if b == 0x72 then 13
    else if b == 0x74 then 9 else b
  }

  lemma {:induction false} RestoredRun(u: Bytes, rest: Bytes)
    requires BACKSLASH !in u
    ensures Restored(u + rest) == u + Restored(rest)
    decreases |u|
  {
    if u == [] {
      assert u + rest == rest;
    } else {
      assert (u + rest)[1..] == u[1..] + rest;
      RestoredRun(u[1..], rest);
    }
  }

  lemma RestoredUnit(c: Byte, rest: Bytes)
    ensures Restored(Unit(c) + rest) == [c] + Restored(rest)
  {
    var b := Unit(c) + rest;
    if Letter(c).Some? {
      assert b[2..] == rest;
    } else if c < 0x20 || c >= 0x7F {
      assert b[6..] == rest && HexDigit(b[4]) == c / 16 && HexDigit(b[5]) == c % 16;
    } else {
      assert b[1..] == rest;
    }
  }

  /** A sequence of two bytes or more has no ASCII byte. */
  lemma SequencePlain(c: int)
    requires Scalar(c) && c >= 0x80
    ensures forall i | 0 <= i < |Encode(c)| :: Encode(c)[i] >= 0x80
  {
  }

  lemma CellUndone(s: Bytes, p: nat, rest: Bytes)
    requires p < |s|
    ensures Restored(CellAt(s, p).text + rest) == CellAt(s, p).raw + Restored(rest)
  {
    DecodedSpells(s, p);
    if Sequence(s, p) {
      SequencePlain(Decoded(s, p).value);
      RestoredRun(CellAt(s, p).text, rest);
    } else {
      RestoredUnit(s[p], rest);
    }
  }

  /** The text of a unit gives its bytes back, whatever follows it. */
  ghost predicate Undone(c: Cell) {
    forall n: nat {:trigger Look(n)} :: Look(n) ==>
      forall rest :: Restored(c.text + rest) == c.raw + Restored(rest)
  }

  ghost predicate AllUndone(cs: seq<Cell>) { forall i | 0 <= i < |cs| :: Undone(cs[i]) }

  lemma FirstUndone(cs: seq<Cell>, s: Bytes, p: nat)
    requires From(cs, s, p) && p < |s|
    ensures cs != [] && Undone(cs[0])
    ensures From(cs[1..], s, p + |cs[0].raw|) && 1 <= |cs[0].raw| <= |s| - p
  {
    FirstCell(cs, s, p);
    var c := cs[0];
    forall rest ensures Restored(c.text + rest) == c.raw + Restored(rest) { CellUndone(s, p, rest); }
  }

  lemma {:induction false} CellsUndone(cs: seq<Cell>, s: Bytes, p: nat)
    requires From(cs, s, p) && p <= |s|
    ensures AllUndone(cs)
    decreases |s| - p
  {
    if p < |s| {
      FirstUndone(cs, s, p);
      CellsUndone(cs[1..], s, p + |cs[0].raw|);
      assert cs == [cs[0]] + cs[1..];
      UndoneMore(cs[0], cs[1..]);
    } else {
      NoCells(cs, s);
    }
  }

  lemma UndoneMore(c: Cell, cs: seq<Cell>)
    requires Undone(c) && AllUndone(cs)
    ensures AllUndone([c] + cs)
  {
  }

  /** The bytes come back from the uncut text. */
  lemma {:induction false} RestoredTexts(cs: seq<Cell>)
    requires AllUndone(cs)
    ensures Restored(Texts(cs)) == Raws(cs)
    decreases |cs|
  {
    if cs != [] {
      assert Undone(cs[0]) && Look(0);
      RestoredTexts(cs[1..]);
    }
  }

  lemma RestoredWhole(s: Bytes)
    ensures Restored(Whole(s)) == s
  {
    AllCells(s);
    CellsUndone(Cells(s, 0), s, 0);
    RestoredTexts(Cells(s, 0));
    CellsCut(s, 0);
    assert s[0..] == s;
  }

  // ---- the value in its buffer ----

  const NULL_TEXT: Bytes := [0x6E, 0x75, 0x6C, 0x6C]

  /** Everything that is written, the NUL included, for a buffer of this size. */
  function Value(s: Bytes, size: nat): Bytes {
    if size == 0 then []
    else if s == [] then NULL_TEXT[..Min(4, size - 1)] + [0]
    else [QUOTE] + Texts(Shown(s, size - 3)) + [QUOTE, 0]
  }

  /** The value stays in its buffer, except a text in a buffer of one or two bytes. */
  lemma InBoundsIff(s: Bytes, size: nat)
    ensures |Value(s, size)| <= size <==> size == 0 || s == [] || size >= 3
  {
    if size >= 3 { FittingIs(Cells(s, 0), size - 3); }
  }

  /** One letter in a buffer of two bytes: its quotes and the NUL are three. */
  lemma TinyBuffer()
    ensures |Value([0x61], 2)| == 3
  {
  }

  /** The units that fit: a JSON text of the first code points, and of all exactly when all fit. */
  lemma FittingMeans(cs: seq<Cell>, room: int)
    requires AllSpell(cs) && room >= 0
    ensures var shown := Fitting(cs, room);
      && JsonText(Texts(shown), Points(shown)) && Points(shown) <= Points(cs)
      && (Points(shown) == Points(cs) <==> |Texts(cs)| <= room)
  {
    var shown := Fitting(cs, room);
    FittingIs(cs, room);
    assert shown == cs[..|shown|];
    PointsPrefix(cs, |shown|);
    PointsPrefix(shown, 0);
    TextsAreJson(shown);
  }

  /** In a buffer that holds it, a value is a JSON string of the first code points of the text, as many as
      fit, and of all of them exactly when the uncut text fits. */
  lemma ValueMeans(s: Bytes, size: nat)
    requires s != [] && 0 !in s && size >= 3
    ensures var shown := Shown(s, size - 3);
      && Value(s, size) == [QUOTE] + Texts(shown) + [QUOTE, 0]
      && JsonText(Texts(shown), Points(shown)) && Points(shown) <= Meaning(s)
      && (Points(shown) == Meaning(s) <==> |Whole(s)| + 3 <= size)
  {
    AllCells(s);
    CellsSpell(Cells(s, 0), s, 0);
    FittingMeans(Cells(s, 0), size - 3);
  }

  lemma ValueIsWhole(s: Bytes, size: nat)
    requires s != [] && |Whole(s)| + 3 <= size
    ensures Value(s, size) == [QUOTE] + Whole(s) + [QUOTE, 0]
  {
    FittingIs(Cells(s, 0), size - 3);
  }

  /** Values that are not cut tell their texts apart. */
  lemma ValuesTell(s: Bytes, t: Bytes, size: nat)
    requires s != [] && t != [] && |Whole(s)| + 3 <= size && |Whole(t)| + 3 <= size
    ensures Value(s, size) == Value(t, size) ==> s == t
  {
    ValueIsWhole(s, size);
    ValueIsWhole(t, size);
    RestoredWhole(s);
    RestoredWhole(t);
    Inner(Whole(s), Whole(t));
  }

  lemma Inner(x: Bytes, y: Bytes)
    ensures [QUOTE] + x + [QUOTE, 0] == [QUOTE] + y + [QUOTE, 0] ==> x == y
  {
    var v, w := [QUOTE] + x + [QUOTE, 0], [QUOTE] + y + [QUOTE, 0];
    assert v[1..|v| - 2] == x && w[1..|w| - 2] == y;
  }

  method Copy(out: array<Byte>, o: nat, u: Bytes)
    requires o + |u| <= out.Length
    modifies out
    ensures out[..o + |u|] == old(out[..o]) + u && out[o + |u|..] == old(out[o + |u|..])
  {
    for i := 0 to |u|
      invariant out[..o] == old(out[..o]) && out[o..o + i] == u[..i]
      invariant out[o + |u|..] == old(out[o + |u|..])
    {
      out[o + i] := u[i];
      assert out[o..o + i + 1] == out[o..o + i] + [u[i]];
    }
    assert out[..o + |u|] == out[..o] + out[o..o + |u|];
  }

  /** The next unit: how many bytes it takes and what is written for it. */
  method NextUnit(s: Bytes, p: nat) returns (take: nat, u: Bytes)
    requires p < |s|
    ensures take == |CellAt(s, p).raw| && u == CellAt(s, p).text
  {
    take := 0;
    if s[p] >= 0x80 {
      take := Utf8Len(s, p);
      DecodedSpells(s, p);
    }
    if take != 0 {
      u := s[p..p + take];
    } else {
      take, u := 1, Unit(s[p]);
    }
  }

  /** What is written so far and the units still to come, in the room that is left, make up the whole. */
  ghost predicate Writing(all: Bytes, done: Bytes, cs: seq<Cell>, room: int) {
    forall n: nat {:trigger Look(n)} :: Look(n) ==> all == done + Texts(Fitting(cs, room))
  }

  lemma WriteGoesOn(all: Bytes, done: Bytes, cs: seq<Cell>, room: int)
    requires Writing(all, done, cs, room) && cs != [] && |cs[0].text| <= room
    ensures Writing(all, done + cs[0].text, cs[1..], room - |cs[0].text|)
  {
    assert Look(0);
    var rest := Fitting(cs[1..], room - |cs[0].text|);
    CellsMore(cs[0], rest);
    assert done + (cs[0].text + Texts(rest)) == (done + cs[0].text) + Texts(rest);
  }

  lemma WriteEnds(all: Bytes, done: Bytes, cs: seq<Cell>, room: int)
    requires Writing(all, done, cs, room) && (cs != [] ==> |cs[0].text| > room)
    ensures done == all
  {
    assert Look(0);
    assert done + [] == done;
  }

  lemma WriteStarts(s: Bytes, room: int)
    ensures From(Cells(s, 0), s, 0) && Writing([QUOTE] + Texts(Shown(s, room)), [QUOTE], Cells(s, 0), room)
  {
  }

  /** Writes one unit. */
  method WriteUnit(out: array<Byte>, o: nat, s: Bytes, p: nat, ghost cs: seq<Cell>, ghost room: int, ghost all: Bytes)
    returns (full: bool, next: nat, q: nat)
    requires p < |s| && o + 2 + room == out.Length && room >= 0
    requires From(cs, s, p) && Writing(all, out[..o], cs, room)
    modifies out
    ensures cs != [] && (full <==> |cs[0].text| > room)
    ensures full ==> next == o && q == p && out[..] == old(out[..])
    ensures !full ==> p < q <= |s| && next == o + |cs[0].text| && out[next..] == old(out[next..])
    ensures !full ==> From(cs[1..], s, q) && Writing(all, out[..next], cs[1..], room - |cs[0].text|)
  {
    FirstCell(cs, s, p);
    var take, u := NextUnit(s, p);
    if o + |u| + 2 > out.Length {
      return true, o, p;
    }
    ghost var done := out[..o];
    WriteGoesOn(all, done, cs, room);
    full, next, q := false, o + |u|, p + take;
    Copy(out, o, u);
    assert out[..next] == done + u;
  }

  method WriteUnits(out: array<Byte>, s: Bytes, ghost units: seq<Cell>, ghost all: Bytes) returns (o: nat)
    requires out.Length >= 3 && From(units, s, 0) && Writing(all, out[..1], units, out.Length - 3)
    modifies out
    ensures 1 <= o && o + 2 <= out.Length && out[..o] == all && out[o..] == old(out[o..])
  {
    var p: nat, full := 0, false;
    o := 1;
    ghost var room, was, cs := out.Length - 3, out[..], units;
    while p < |s| && !full
      invariant p <= |s| && 1 <= o && o + 2 + room == out.Length && room >= 0 && out[o..] == was[o..]
      invariant From(cs, s, p) && Writing(all, out[..o], cs, room)
      invariant full ==> cs != [] && |cs[0].text| > room
      decreases |s| - p, !full
    {
      ghost var now := out[..];
      assert now[o..] == was[o..];
      full, o, p := WriteUnit(out, o, s, p, cs, room, all);
      if !full { room, cs := room - |cs[0].text|, cs[1..]; }
      assert full ==> out[..o] == now[..o];
      assert now[o..] == was[o..];
    }
    if !full { NoCells(cs, s); }
    WriteEnds(all, out[..o], cs, room);
  }

  method WriteValue(out: array<Byte>, s: Bytes)
    requires out.Length == 0 || s == [] || out.Length >= 3
    modifies out
    ensures |Value(s, out.Length)| <= out.Length && out[..|Value(s, out.Length)|] == Value(s, out.Length)
    ensures out[|Value(s, out.Length)|..] == old(out[|Value(s, out.Length)|..])
  {
    InBoundsIff(s, out.Length);
    if out.Length == 0 {
      return;
    }
    if s == [] {
      Copy(out, 0, NULL_TEXT[..Min(4, out.Length - 1)] + [0]);
      return;
    }
    ghost var was := out[1..];
    Copy(out, 0, [QUOTE]);
    assert out[1..] == was;
    WriteStarts(s, out.Length - 3);
    var o := WriteUnits(out, s, Cells(s, 0), [QUOTE] + Texts(Shown(s, out.Length - 3)));
    assert out[o..] == was[o - 1..];
    Copy(out, o, [QUOTE, 0]);
    assert out[o + 2..] == was[o - 1..][2..];
  }
}
