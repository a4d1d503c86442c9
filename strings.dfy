/** Character-level helpers shared by the placeholder rewriter, the identifier
    quoting and the statement classifier. */
module Strings {

  /** Number of occurrences of `c` in `s`. */
  function CountChar(c: char, s: string): (n: nat)
    ensures n <= |s|
  {
    if s == [] then 0
    else (if s[0] == c then 1 else 0) + CountChar(c, s[1..])
  }

  lemma {:induction false} CountCharZero(c: char, s: string)
    ensures CountChar(c, s) == 0 <==> c !in s
  {
    if s != [] {
      CountCharZero(c, s[1..]);
      assert s == [s[0]] + s[1..];
    }
  }

  lemma {:induction false} CountCharAppend(c: char, a: string, b: string)
    ensures CountChar(c, a + b) == CountChar(c, a) + CountChar(c, b)
  {
    if a == [] {
      assert a + b == b;
    } else {
      assert (a + b)[1..] == a[1..] + b;
      CountCharAppend(c, a[1..], b);
    }
  }

  /** ASCII lower-casing: the only folding a JavaScript `/i` regular
      expression without the `u` flag applies to the ASCII keywords matched here. */
  function Lower(c: char): (l: char)
    ensures 'A' <= c <= 'Z' ==> l as int == c as int + 32
    ensures !('A' <= c <= 'Z') ==> l == c
  {
    if 'A' <= c <= 'Z' then (c as int + 32) as char else c
  }

  function ToLower(s: string): (r: string)
    ensures |r| == |s|
    ensures forall i :: 0 <= i < |s| ==> r[i] == Lower(s[i])
  {
    seq(|s|, i requires 0 <= i < |s| => Lower(s[i]))
  }

  /** `s` matches `/^kw/i` for a lower-case ASCII keyword `kw`. */
  predicate StartsWithIgnoringCase(s: string, kw: string)
  {
    |kw| <= |s| && forall i :: 0 <= i < |kw| ==> Lower(s[i]) == kw[i]
  }

  /** Only `A`-`Z` fold: a character outside ASCII never matches a keyword
      letter, so the test fails wherever such a character stands in the
      keyword's span. */
  lemma NonAsciiNeverMatches(s: string, kw: string, i: nat)
    requires i < |kw| <= |s| && 'a' <= kw[i] <= 'z'
    requires s[i] as int >= 128
    ensures !StartsWithIgnoringCase(s, kw)
  {
    assert Lower(s[i]) != kw[i];
  }
}
