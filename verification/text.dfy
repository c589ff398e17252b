/** The few string operations of JavaScript the ledger relies on. */
module Text {

  /** The decimal digit character of `d`. */
  function Digit(d: nat): (ch: char)
    requires d < 10
    ensures '0' <= ch <= '9'
  {
    ('0' as int + d) as char
  }

  /** `String(n)` for a non-negative integer-valued Number: its decimal digits. */
  function NatToString(n: nat): (s: string)
    decreases n
  {
    if n < 10 then [Digit(n)] else NatToString(n / 10) + [Digit(n % 10)]
  }

  /** `String(n)` for an integer-valued Number: a minus sign, then the digits of `|n|`. */
  function IntToString(n: int): (s: string)
  {
    if n < 0 then "-" + NatToString(-n) else NatToString(n)
  }

  /** `d` zero characters. */
  function Zeros(d: nat): (s: string)
    ensures |s| == d
    ensures forall i :: 0 <= i < d ==> s[i] == '0'
  {
    seq(d, _ => '0')
  }

  /** `s.substring(0, d)`: the first `d` characters, or all of `s` when it is shorter. */
  function Prefix(s: string, d: nat): (p: string)
    ensures |p| == if d <= |s| then d else |s|
    ensures p <= s
  {
    if d <= |s| then s[..d] else s
  }

  /** `s.includes(sub)`: `sub` occurs somewhere in `s` as a contiguous run. */
  predicate Contains(s: string, sub: string)
    decreases |s|
  {
    |sub| <= |s| && (s[..|sub|] == sub || (|s| > 0 && Contains(s[1..], sub)))
  }

  /** An occurrence of `sub` at position `i` of `s` makes `Contains` hold. */
  lemma {:induction false} ContainsAt(s: string, sub: string, i: nat)
    requires i + |sub| <= |s|
    requires s[i..i + |sub|] == sub
    ensures Contains(s, sub)
    decreases i
  {
    if i > 0 {
      assert s[1..][i - 1..i - 1 + |sub|] == s[i..i + |sub|];
      ContainsAt(s[1..], sub, i - 1);
    }
  }

  /** No element of `s` equals `ch`. */
  predicate Lacks(s: string, ch: char)
  {
    forall i :: 0 <= i < |s| ==> s[i] != ch
  }

  /** A character absent from `s` is absent from every run `s` contains. */
  lemma {:induction false} LacksPassesToPart(s: string, sub: string, ch: char)
    requires Contains(s, sub) && Lacks(s, ch)
    ensures Lacks(sub, ch)
    decreases |s|
  {
    if s[..|sub|] == sub {
      assert forall k :: 0 <= k < |sub| ==> sub[k] == s[k];
    } else {
      LacksPassesToPart(s[1..], sub, ch);
    }
  }

  /** No element of `xs` occurs twice. */
  predicate Distinct<T(==)>(xs: seq<T>)
  {
    forall i, j :: 0 <= i < j < |xs| ==> xs[i] != xs[j]
  }

  /** The elements of `xs`. */
  function Elements<T>(xs: seq<T>): set<T>
  {
    set x | x in xs
  }

  /** The first position of `x` in `xs`. */
  function IndexOf<T(==)>(xs: seq<T>, x: T): (k: nat)
    requires x in xs
    ensures k < |xs| && xs[k] == x
    ensures forall j :: 0 <= j < k ==> xs[j] != x
  {
    if xs[0] == x then 0 else 1 + IndexOf(xs[1..], x)
  }

  /** An element that occurs in the first `n` places is first found there. */
  lemma IndexOfInPrefix<T>(xs: seq<T>, n: nat, x: T)
    requires n <= |xs| && x in xs[..n]
    ensures x in xs && IndexOf(xs, x) == IndexOf(xs[..n], x)
  {
    var k := IndexOf(xs[..n], x);
    assert xs[k] == x;
    var k' := IndexOf(xs, x);
    assert k' <= k;
    assert xs[..n][k'] == x;
  }
}
