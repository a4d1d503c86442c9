/** `escapeId` (lib/clients/pg.js:124-126): a PostgreSQL quoted identifier
    (section 4.1.1 of the PostgreSQL manual, "Identifiers and Key Words"). */
module Quoting {
  import opened Wrappers
  import opened Strings

  /** Every `"` written twice, everything else kept. */
  function DoubleQuotes(s: string): (r: string)
    ensures |r| == |s| + CountChar('"', s)
  {
    if s == [] then []
    else (if s[0] == '"' then "\"\"" else [s[0]]) + DoubleQuotes(s[1..])
  }

  /** `escapeId(identifier)`: wrap in `"` after doubling the embedded ones. */
  function EscapeId(id: string): (r: string)
    ensures |r| == |id| + 2 + CountChar('"', id)
    ensures r[0] == '"' && r[|r| - 1] == '"'
  {
    "\"" + DoubleQuotes(id) + "\""
  }

  /** Reads the body of a quoted identifier back: `""` is one `"`, and a
      lone `"` is not allowed. */
  function Undouble(s: string): (r: Option<string>)
    decreases |s|
  {
    if s == [] then Some([])
    else if s[0] != '"' then
      match Undouble(s[1..])
      case Some(t) => Some([s[0]] + t)
      case None => None
    else if |s| >= 2 && s[1] == '"' then
      match Undouble(s[2..])
      case Some(t) => Some("\"" + t)
      case None => None
    else None
  }

  /** The decoder: strip the enclosing quotes and undouble the body. */
  function UnescapeId(q: string): (r: Option<string>)
  {
    if |q| >= 2 && q[0] == '"' && q[|q| - 1] == '"' then Undouble(q[1..|q| - 1]) else None
  }

  lemma {:induction false} UndoubleDoubleQuotes(s: string)
    ensures Undouble(DoubleQuotes(s)) == Some(s)
  {
    if s != [] {
      UndoubleDoubleQuotes(s[1..]);
      var d := DoubleQuotes(s);
      if s[0] == '"' {
        assert d[0] == '"' && d[1] == '"' && d[2..] == DoubleQuotes(s[1..]);
      } else {
        assert d[0] == s[0] && d[1..] == DoubleQuotes(s[1..]);
      }
      assert [s[0]] + s[1..] == s;
    }
  }

  /** Round trip: decoding an escaped identifier gives the identifier back. */
  lemma EscapeRoundTrip(id: string)
    ensures UnescapeId(EscapeId(id)) == Some(id)
  {
    var q := EscapeId(id);
    assert q[1..|q| - 1] == DoubleQuotes(id);
    UndoubleDoubleQuotes(id);
  }

  lemma {:induction false} DoubleQuotesUndouble(s: string, t: string)
    requires Undouble(s) == Some(t)
    ensures DoubleQuotes(t) == s
    decreases |s|
  {
    if s != [] {
      if s[0] != '"' {
        var t' := Undouble(s[1..]).value;
        DoubleQuotesUndouble(s[1..], t');
        assert t == [s[0]] + t';
        assert t[1..] == t';
        assert s == [s[0]] + s[1..];
      } else {
        var t' := Undouble(s[2..]).value;
        DoubleQuotesUndouble(s[2..], t');
        assert t == "\"" + t';
        assert t[1..] == t';
        assert s == "\"\"" + s[2..];
      }
    }
  }

  /** Every text the decoder accepts is the escaping of what it decodes to,
      so escaping is a bijection onto well-formed quoted identifiers. */
  lemma UnescapeExact(q: string, id: string)
    requires UnescapeId(q) == Some(id)
    ensures EscapeId(id) == q
  {
    assert |q| >= 2 && q[0] == '"' && q[|q| - 1] == '"';
    var body := q[1..|q| - 1];
    DoubleQuotesUndouble(body, id);
    calc {
      EscapeId(id);
      "\"" + DoubleQuotes(id) + "\"";
      "\"" + body + "\"";
      { assert q[..1] == "\"" && q[|q| - 1..] == "\"";
        assert q == q[..1] + body + q[|q| - 1..]; }
      q;
    }
  }

  /** `escapeId('a"b')` is `"a""b"`. */
  lemma EmbeddedQuoteDoubled()
    ensures EscapeId("a\"b") == "\"a\"\"b\""
  {
  }
}
