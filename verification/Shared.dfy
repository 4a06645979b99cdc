/**
 What several modules share.
 */
module Shared {

  datatype Option<+T> = None | Some(value: T)

  function Min(a: int, b: int): int { if a < b then a else b }

  function Concat<T>(ps: seq<seq<T>>): seq<T> { if ps == [] then [] else ps[0] + Concat(ps[1..]) }

  /** The sequence without its k-th element. */
  function Cut<T>(s: seq<T>, k: nat): seq<T>
    requires k < |s|
  {
    s[..k] + s[k + 1..]
  }

  lemma CutMembers<T>(s: seq<T>, k: nat)
    requires k < |s|
    ensures forall x :: x in Cut(s, k) ==> x in s
    ensures forall x | x in s && x != s[k] :: x in Cut(s, k)
    ensures (forall i | 0 <= i < |s| && i != k :: s[i] != s[k]) ==> s[k] !in Cut(s, k)
  {
    assert s == s[..k] + [s[k]] + s[k + 1..];
    assert forall x | x in s && x != s[k] :: x in s[..k] || x in s[k + 1..];
  }

  // ---- characters ----

  function Lower(c: char): char { if 'A' <= c <= 'Z' then (c as int + 32) as char else c }

  /** Index of the first `c`, or |s|. */
  function IndexOf(s: string, c: char): (i: nat)
    ensures i <= |s| && c !in s[..i]
    ensures i < |s| ==> s[i] == c
  {
    if s == [] || s[0] == c then 0
    else
      var i := 1 + IndexOf(s[1..], c);
      assert s[..i] == [s[0]] + s[1..][..i - 1];
      i
  }

  /** A text as the C string functions see it. */
  function UpToNul(s: string): string { s[..IndexOf(s, '\0')] }

  predicate IsDigit(c: char) { '0' <= c <= '9' }

  predicate AllDigits(s: string) { forall i | 0 <= i < |s| :: IsDigit(s[i]) }

  function Decimal(s: string): nat
    requires AllDigits(s)
  {
    if s == [] then 0 else 10 * Decimal(s[..|s| - 1]) + (s[|s| - 1] as int - '0' as int)
  }

  lemma {:induction false} DecimalMonotone(s: string, k: nat)
    requires AllDigits(s) && k <= |s|
    ensures Decimal(s[..k]) <= Decimal(s)
    decreases |s| - k
  {
    if k < |s| {
      DecimalMonotone(s, k + 1);
      assert s[..k + 1][..k] == s[..k];
    } else {
      assert s[..k] == s;
    }
  }

  // ---- division ----

  /** Quotient and remainder are what the division theorem says. */
  lemma Quotient(x: int, k: int, q: int, r: int)
    requires k > 0 && x == k * q + r && 0 <= r < k
    ensures x / k == q && x % k == r
  {
    var d := x / k - q;
    assert k * d == r - x % k;
    Multiple(k, d);
  }

  lemma Multiple(k: int, d: int)
    requires k > 0
    ensures (d >= 1 ==> k * d >= k) && (d <= -1 ==> k * d <= -k)
  {
  }

  /** Guards a proposition: `forall n {:trigger Look(n)} :: Look(n) ==> P` is passed on as a whole, and
      `assert Look(0)` looks inside. */
  predicate Look(n: nat) { true }
}
