/** `prepare` (lib/clients/pg.js:85-91): rewrites `?` placeholders into
    PostgreSQL positional parameters `$1`, `$2`, ... */
module Placeholders {
  import opened Strings
  import Decimal

  /** The positional parameter written for the k-th placeholder. */
  function Marker(k: nat): (m: string)
    ensures |m| >= 2 && m[0] == '$'
  {
    "$" + Decimal.NatToString(k)
  }

  /** A marker holds one `$`, then digits only. */
  lemma MarkerShape(k: nat)
    ensures '?' !in Marker(k) && CountChar('$', Marker(k)) == 1 && CountChar('?', Marker(k)) == 0
  {
    var digits := Decimal.NatToString(k);
    Decimal.NatToStringDigits(k);
    assert '?' !in digits && '$' !in digits by {
      forall i | 0 <= i < |digits| ensures digits[i] != '?' && digits[i] != '$' {
        assert Decimal.IsDigit(digits[i]);
      }
    }
    CountCharZero('$', digits);
    CountCharZero('?', digits);
    CountCharAppend('$', "$", digits);
    CountCharAppend('?', "$", digits);
  }

  /** What one character is written as when `n` placeholders came before it. */
  function Piece(c: char, n: nat): (p: string)
  {
    if c == '?' then Marker(n + 1) else [c]
  }

  /** `s` with its placeholders numbered from `n + 1` on, left to right. */
  function Rewrite(s: string, n: nat): (r: string)
    ensures |r| >= |s|
  {
    if s == [] then []
    else Piece(s[0], n) + Rewrite(s[1..], if s[0] == '?' then n + 1 else n)
  }

  /** `prepare(sql, values)`: the counter `k` is bumped for every `?`, which
      is replaced by `$k`; the values come back as they were given. */
  method Prepare<V>(sql: string, values: seq<V>) returns (text: string, vals: seq<V>)
    ensures text == Rewrite(sql, 0)
    ensures vals == values
  {
    var k: nat := 0;
    text := "";
    var i := 0;
    while i < |sql|
      invariant 0 <= i <= |sql|
      invariant k == CountChar('?', sql[..i])
      invariant text == Rewrite(sql[..i], 0)
    {
      RewriteStep(sql, i);
      if sql[i] == '?' {
        k := k + 1;
        text := text + Marker(k);
      } else {
        text := text + [sql[i]];
      }
      i := i + 1;
    }
    assert sql[..i] == sql;
    vals := values;
  }

  /** One step of the scan: the character at `i` is appended, a placeholder
      as the marker numbered after those already seen. */
  lemma RewriteStep(s: string, i: nat)
    requires i < |s|
    ensures CountChar('?', s[..i + 1]) == CountChar('?', s[..i]) + (if s[i] == '?' then 1 else 0)
    ensures Rewrite(s[..i + 1], 0) == Rewrite(s[..i], 0) +
      (if s[i] == '?' then Marker(CountChar('?', s[..i]) + 1) else [s[i]])
  {
    assert s[..i + 1] == s[..i] + [s[i]];
    RewriteAppend(s[..i], [s[i]], 0);
    CountCharAppend('?', s[..i], [s[i]]);
    assert [s[i]][1..] == [];
  }

  /** Rewriting a concatenation: the second part continues the numbering
      where the first part stopped. */
  lemma {:induction false} RewriteAppend(a: string, b: string, n: nat)
    ensures Rewrite(a + b, n) == Rewrite(a, n) + Rewrite(b, n + CountChar('?', a))
  {
    if a == [] {
      assert a + b == b;
    } else {
      var ab := a + b;
      assert ab[0] == a[0] && ab[1..] == a[1..] + b;
      var m := if a[0] == '?' then n + 1 else n;
      var head, left, right := Piece(a[0], n), Rewrite(a[1..], m), Rewrite(b, m + CountChar('?', a[1..]));
      RewriteAppend(a[1..], b, m);
      assert m + CountChar('?', a[1..]) == n + CountChar('?', a);
      calc {
        Rewrite(ab, n);
        head + Rewrite(a[1..] + b, m);
        head + (left + right);
        { AppendAssoc(head, left, right); }
        (head + left) + right;
      }
    }
  }

  /** Sequence concatenation regroups; called where the solver would
      otherwise search for the regrouping itself. */
  lemma AppendAssoc(x: string, y: string, z: string)
    ensures x + (y + z) == (x + y) + z
  {
  }

  /** Rewriting text that starts with `c` writes `c`'s piece first. */
  lemma RewriteCons(c: char, b: string, n: nat)
    ensures Rewrite([c] + b, n) == Piece(c, n) + Rewrite(b, if c == '?' then n + 1 else n)
  {
    assert ([c] + b)[0] == c && ([c] + b)[1..] == b;
  }

  /** The placeholder that follows `a` is the (count of `?` in `a` + 1)-th and
      becomes that marker; the text before it and after it is rewritten alone.
      Nothing about `a` matters but its count of `?`: a placeholder inside a
      quoted literal is replaced like any other. */
  lemma KthPlaceholder(a: string, b: string)
    ensures Rewrite(a + "?" + b, 0) ==
      Rewrite(a, 0) + Marker(CountChar('?', a) + 1) + Rewrite(b, CountChar('?', a) + 1)
  {
    AppendAssoc(a, "?", b);
    RewriteAppend(a, "?" + b, 0);
    RewriteCons('?', b, CountChar('?', a));
    AppendAssoc(Rewrite(a, 0), Marker(CountChar('?', a) + 1), Rewrite(b, CountChar('?', a) + 1));
  }

  /** A character that is not a placeholder stays where it is. */
  lemma OtherCharKept(a: string, c: char, b: string)
    requires c != '?'
    ensures Rewrite(a + [c] + b, 0) == Rewrite(a, 0) + [c] + Rewrite(b, CountChar('?', a))
  {
    AppendAssoc(a, [c], b);
    RewriteAppend(a, [c] + b, 0);
    RewriteCons(c, b, CountChar('?', a));
    AppendAssoc(Rewrite(a, 0), [c], Rewrite(b, CountChar('?', a)));
  }

  /** Text without placeholders comes back unchanged. */
  lemma {:induction false} RewriteNoPlaceholder(s: string, n: nat)
    requires '?' !in s
    ensures Rewrite(s, n) == s
  {
    if s != [] {
      assert s[1..] == s[1..] && '?' !in s[1..];
      RewriteNoPlaceholder(s[1..], n);
    }
  }

  /** No placeholder survives, and one `$` marker is added per placeholder. */
  lemma {:induction false} RewriteCounts(s: string, n: nat)
    ensures '?' !in Rewrite(s, n)
    ensures CountChar('$', Rewrite(s, n)) == CountChar('$', s) + CountChar('?', s)
  {
    if s != [] {
      var m := if s[0] == '?' then n + 1 else n;
      RewriteCounts(s[1..], m);
      MarkerShape(n + 1);
      CountCharAppend('$', Piece(s[0], n), Rewrite(s[1..], m));
      CountCharAppend('?', Piece(s[0], n), Rewrite(s[1..], m));
      CountCharZero('?', Piece(s[0], n) + Rewrite(s[1..], m));
      CountCharZero('?', Rewrite(s[1..], m));
    }
  }
}
