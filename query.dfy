/** `Leoric_query` (lib/clients/pg.js:94-123): classifies the statement,
    sends it, and shapes what the driver answers. The driver call itself is
    not modelled: the method returns the statement it would send and takes
    the driver's answer to it as a parameter. */
module Connection {
  import opened Wrappers
  import opened Strings
  import opened PgCast
  import opened Nesting
  import Placeholders
  import Quoting

  /** The options object: `{ sql, nestTables, spell }`; `spell: None` is an
      undefined spell. */
  datatype QueryOptions = QueryOptions(sql: string, nestTables: bool, spell: Option<Spell>)

  /** The first argument: a bare SQL string or an options object. */
  datatype Request = SqlText(text: string) | WithOptions(opts: QueryOptions)

  /** `if (typeof opts === 'string') opts = { sql: opts }` */
  function Normalize(req: Request): (opts: QueryOptions)
    ensures req.SqlText? ==> opts.sql == req.text && !opts.nestTables && opts.spell.None?
    ensures req.WithOptions? ==> opts == req.opts
  {
    match req
    case SqlText(sql) => QueryOptions(sql, false, None)
    case WithOptions(opts) => opts
  }

  /** The driver's `rowMode`: rows keyed by column name, or `'array'`. */
  datatype RowMode = Keyed | Positional

  /** The query config handed to the driver. */
  datatype Statement = Statement(text: string, values: seq<Value>, rowMode: RowMode)

  datatype Rows = ArrayRows(arrays: seq<seq<Value>>) | ObjectRows(objects: seq<map<string, Value>>)

  /** What the driver answers: `{ rows, fields, rowCount }`. */
  datatype RawResult = RawResult(rows: Rows, fields: seq<Field>, rowCount: nat)

  /** The four shapes `Leoric_query` returns. `insertId: None` is undefined. */
  datatype QueryResult =
    | Nested(rows: seq<NestedRow>, fields: seq<Field>)
    | Inserted(insertId: Option<Value>, affectedRows: nat)
    | Affected(affectedRows: nat)
    | Raw(result: RawResult)

  /** The TypeErrors the code can throw: reading `Model` of an undefined
      spell, and reading a column of an undefined `rows[0]`. */
  datatype Error = SpellUndefined | NoReturnedRow

  /** The branch `Leoric_query` takes, in its order of precedence. */
  datatype Kind = NestKind | InsertKind | MutationKind | OtherKind

  function Classify(opts: QueryOptions): (k: Kind)
    ensures k == NestKind <==> opts.nestTables
    ensures k == InsertKind <==> !opts.nestTables && StartsWithIgnoringCase(opts.sql, "insert")
    ensures k == MutationKind ==> StartsWithIgnoringCase(opts.sql, "update") || StartsWithIgnoringCase(opts.sql, "delete")
    ensures k == OtherKind ==> forall kw | kw in ["insert", "update", "delete"] :: !StartsWithIgnoringCase(opts.sql, kw)
  {
    if opts.nestTables then NestKind
    else if StartsWithIgnoringCase(opts.sql, "insert") then InsertKind
    else if StartsWithIgnoringCase(opts.sql, "update") || StartsWithIgnoringCase(opts.sql, "delete") then MutationKind
    else OtherKind
  }

  /** The row mode a branch asks the driver for. */
  function ModeFor(opts: QueryOptions): (mode: RowMode)
  {
    if opts.nestTables then Positional else Keyed
  }

  /** The driver answered in the row mode it was asked for, with array rows
      at least as long as the field list. */
  predicate Answers(mode: RowMode, raw: RawResult)
  {
    match mode
    case Positional => raw.rows.ArrayRows? && forall r | r in raw.rows.arrays :: |raw.fields| <= |r|
    case Keyed => raw.rows.ObjectRows?
  }

  /** The index of the last field called `name`, if any. */
  function LastNamed(fields: seq<Field>, name: string): (r: Option<nat>)
    ensures r.Some? ==> r.value < |fields| && fields[r.value].name == name
    ensures r.Some? ==> forall j | r.value < j < |fields| :: fields[j].name != name
    ensures r.None? ==> forall j | 0 <= j < |fields| :: fields[j].name != name
  {
    if |fields| == 0 then None
    else if fields[|fields| - 1].name == name then Some(|fields| - 1)
    else LastNamed(fields[..|fields| - 1], name)
  }

  /** The generated key: the first returned row's value of the primary
      column, cast with the last field of that name; undefined when no field
      has that name or no row came back. */
  function InsertIdOf(rows: seq<map<string, Value>>, fields: seq<Field>, primaryColumn: string): (r: Option<Value>)
    ensures r.Some? <==>
      (exists i :: 0 <= i < |fields| && fields[i].name == primaryColumn) && |rows| > 0 && primaryColumn in rows[0]
    ensures r.Some? ==> r.value == Cast(rows[0][primaryColumn], fields[LastNamed(fields, primaryColumn).value])
  {
    match LastNamed(fields, primaryColumn)
    case None => None
    case Some(i) =>
      if |rows| > 0 && primaryColumn in rows[0] then Some(Cast(rows[0][primaryColumn], fields[i])) else None
  }

  /** The scan of `fields` in the insert branch: every field named after the
      primary column overwrites `insertId`. */
  method ExtractInsertId(rows: seq<map<string, Value>>, fields: seq<Field>, primaryColumn: string)
    returns (insertId: Option<Value>)
    ensures insertId == InsertIdOf(rows, fields, primaryColumn)
    ensures insertId.Some? <==>
      (exists i :: 0 <= i < |fields| && fields[i].name == primaryColumn) && |rows| > 0 && primaryColumn in rows[0]
    ensures insertId.Some? ==>
      exists i :: 0 <= i < |fields| && fields[i].name == primaryColumn &&
        (forall j | i < j < |fields| :: fields[j].name != primaryColumn) &&
        insertId.value == Cast(rows[0][primaryColumn], fields[i])
  {
    insertId := None;
    for i := 0 to |fields|
      invariant insertId == InsertIdOf(rows, fields[..i], primaryColumn)
    {
      assert fields[..i + 1][..i] == fields[..i];
      if fields[i].name == primaryColumn && |rows| > 0 && primaryColumn in rows[0] {
        insertId := Some(Cast(rows[0][primaryColumn], fields[i]));
      }
    }
    assert fields[..|fields|] == fields;
    match LastNamed(fields, primaryColumn)
    case None =>
    case Some(i) =>
      assert fields[i].name == primaryColumn;
  }

  /** `Leoric_query(opts, values)`: returns the statement sent to the driver
      (`None` when it throws before sending) and the shaped answer to it. */
  method LeoricQuery(req: Request, values: seq<Value>, raw: RawResult)
    returns (sent: Option<Statement>, out: Result<QueryResult, Error>)
    requires Answers(ModeFor(Normalize(req)), raw)
    requires Normalize(req).nestTables && Normalize(req).spell.Some? ==>
      Covers(raw.fields, Qualifiers(Normalize(req).spell.value))
    ensures var opts := Normalize(req);
      Classify(opts) == NestKind ==>
        && sent == Some(Statement(Placeholders.Rewrite(opts.sql, 0), values, Positional))
        && (opts.spell.None? ==> out == Failure(SpellUndefined))
        && (opts.spell.Some? ==>
              && out.Success? && out.value.Nested?
              && out.value.fields == raw.fields
              && |out.value.rows| == |raw.rows.arrays|
              && forall k | 0 <= k < |raw.rows.arrays| ::
                   out.value.rows[k] == NestRow(raw.rows.arrays[k], raw.fields, Qualifiers(opts.spell.value)))
    ensures var opts := Normalize(req);
      Classify(opts) == InsertKind ==>
        && (opts.spell.None? ==> sent == None && out == Failure(SpellUndefined))
        && (opts.spell.Some? ==>
              var pk := opts.spell.value.model.primaryColumn;
              && sent == Some(Statement(Placeholders.Rewrite(opts.sql, 0) + " RETURNING " + Quoting.EscapeId(pk),
                                        values, Keyed))
              && out == Success(Inserted(InsertIdOf(raw.rows.objects, raw.fields, pk), raw.rowCount)))
    ensures var opts := Normalize(req);
      Classify(opts) == MutationKind ==>
        && sent == Some(Statement(Placeholders.Rewrite(opts.sql, 0), values, Keyed))
        && out == Success(Affected(raw.rowCount))
    ensures var opts := Normalize(req);
      Classify(opts) == OtherKind ==>
        && sent == Some(Statement(Placeholders.Rewrite(opts.sql, 0), values, Keyed))
        && out == Success(Raw(raw))
  {
    var opts := Normalize(req);
    var text, vals := Placeholders.Prepare(opts.sql, values);
    match Classify(opts)
    case NestKind =>
      sent := Some(Statement(text, vals, Positional));
      if opts.spell.None? {
        out := Failure(SpellUndefined);
      } else {
        var rows, fields := Nest(raw.rows.arrays, raw.fields, opts.spell.value);
        out := Success(Nested(rows, fields));
      }
    case InsertKind =>
      if opts.spell.None? {
        sent, out := None, Failure(SpellUndefined);
      } else {
        var primaryColumn := opts.spell.value.model.primaryColumn;
        var key := Quoting.EscapeId(primaryColumn);
        sent := Some(Statement(text + " RETURNING " + key, vals, Keyed));
        var insertId := ExtractInsertId(raw.rows.objects, raw.fields, primaryColumn);
        out := Success(Inserted(insertId, raw.rowCount));
      }
    case MutationKind =>
      sent := Some(Statement(text, vals, Keyed));
      out := Success(Affected(raw.rowCount));
    case OtherKind =>
      sent := Some(Statement(text, vals, Keyed));
      out := Success(Raw(raw));
  }

  /** The keyword test ignores letter case. */
  lemma ClassifyIgnoresCase(opts: QueryOptions)
    ensures Classify(opts.(sql := ToLower(opts.sql))) == Classify(opts)
  {
    var lower := ToLower(opts.sql);
    forall kw: string | kw == "insert" || kw == "update" || kw == "delete"
      ensures StartsWithIgnoringCase(lower, kw) == StartsWithIgnoringCase(opts.sql, kw)
    {
      if |kw| <= |opts.sql| {
        forall i | 0 <= i < |kw| ensures Lower(lower[i]) == Lower(opts.sql[i]) {
        }
      }
    }
  }

  /** A prefix of at least the keyword's length decides the keyword test,
      whatever follows it. */
  lemma KeywordPrefix(w: string, rest: string, kw: string)
    requires |kw| <= |w|
    ensures StartsWithIgnoringCase(w + rest, kw) == StartsWithIgnoringCase(w, kw)
  {
    assert forall i | 0 <= i < |w| :: (w + rest)[i] == w[i];
  }

  /** The keyword test on six-letter text, letter by letter (`insert`,
      `update` and `delete` all have six letters). */
  lemma SixLetterMatch(w: string, kw: string)
    requires |w| == 6 && |kw| == 6
    requires Lower(w[0]) == kw[0] && Lower(w[1]) == kw[1] && Lower(w[2]) == kw[2]
    requires Lower(w[3]) == kw[3] && Lower(w[4]) == kw[4] && Lower(w[5]) == kw[5]
    ensures StartsWithIgnoringCase(w, kw)
  {
  }

  /** A nesting request wins over the statement's keyword. */
  lemma NestWinsOverInsert(rest: string, spell: Option<Spell>)
    ensures Classify(QueryOptions("INSERT" + rest, true, spell)) == NestKind
  {
  }

  /** `insert` is recognised in any letter case. */
  lemma InsertInAnyCase(rest: string, spell: Option<Spell>)
    ensures Classify(QueryOptions("INSERT" + rest, false, spell)) == InsertKind
    ensures Classify(QueryOptions("Insert" + rest, false, spell)) == InsertKind
  {
    KeywordPrefix("INSERT", rest, "insert");
    SixLetterMatch("INSERT", "insert");
    KeywordPrefix("Insert", rest, "insert");
    SixLetterMatch("Insert", "insert");
  }

  /** An update statement takes the row-count branch. */
  lemma UpdateIsMutation(rest: string, spell: Option<Spell>)
    ensures Classify(QueryOptions("UPDATE" + rest, false, spell)) == MutationKind
  {
    KeywordPrefix("UPDATE", rest, "insert");
    KeywordPrefix("UPDATE", rest, "update");
    SixLetterMatch("UPDATE", "update");
    assert Lower("UPDATE"[0]) != "insert"[0];
  }

  /** A delete statement takes the row-count branch. */
  lemma DeleteIsMutation(rest: string, spell: Option<Spell>)
    ensures Classify(QueryOptions("delete" + rest, false, spell)) == MutationKind
  {
    KeywordPrefix("delete", rest, "insert");
    KeywordPrefix("delete", rest, "update");
    KeywordPrefix("delete", rest, "delete");
    SixLetterMatch("delete", "delete");
    assert Lower("delete"[0]) != "insert"[0] && Lower("delete"[0]) != "update"[0];
  }

  /** The keyword must open the text: a leading blank sends an insert down
      the raw branch, and a select is raw too. */
  lemma OtherStatements(rest: string, spell: Option<Spell>)
    ensures Classify(QueryOptions(" insert" + rest, false, spell)) == OtherKind
    ensures Classify(QueryOptions("SELECT" + rest, false, spell)) == OtherKind
  {
    KeywordPrefix(" insert", rest, "insert");
    KeywordPrefix(" insert", rest, "update");
    KeywordPrefix(" insert", rest, "delete");
    assert Lower(" insert"[0]) == ' ';
    KeywordPrefix("SELECT", rest, "insert");
    KeywordPrefix("SELECT", rest, "update");
    KeywordPrefix("SELECT", rest, "delete");
    assert Lower("SELECT"[0]) == 's';
  }

  /** A bare SQL string that begins with `insert` has no spell to read the
      primary column from, so the call throws before sending anything. */
  lemma BareInsertThrows(sql: string)
    requires StartsWithIgnoringCase(sql, "insert")
    ensures Classify(Normalize(SqlText(sql))) == InsertKind
    ensures Normalize(SqlText(sql)).spell.None?
  {
  }

  /** Without a field named after the primary column, `insertId` stays undefined. */
  lemma InsertIdMissingColumn(rows: seq<map<string, Value>>, fields: seq<Field>, primaryColumn: string)
    requires forall i | 0 <= i < |fields| :: fields[i].name != primaryColumn
    ensures InsertIdOf(rows, fields, primaryColumn) == None
  {
  }

  /** A generated int8 key sent back as the text "42" is the number 42. */
  lemma InsertIdInt8()
    ensures InsertIdOf([map["id" := Str("42")]], [Field("id", 1, Int8Oid)], "id") == Some(Num(42))
  {
    CastInt8Text(42, Field("id", 1, Int8Oid));
  }

  /** The insert branch's scan as written: it reads `rows[0][primaryColumn]`
      whenever a field matches, which throws when no row came back. */
  function InsertIdAsWritten(rows: seq<map<string, Value>>, fields: seq<Field>, primaryColumn: string)
    : (r: Result<Option<Value>, Error>)
    ensures r.Failure? <==> |rows| == 0 && exists i :: 0 <= i < |fields| && fields[i].name == primaryColumn
    ensures r.Failure? ==> r.error == NoReturnedRow
  {
    if |fields| == 0 then Success(None)
    else
      match InsertIdAsWritten(rows, fields[..|fields| - 1], primaryColumn)
      case Failure(e) => Failure(e)
      case Success(id) =>
        if fields[|fields| - 1].name != primaryColumn then Success(id)
        else if |rows| == 0 then Failure(NoReturnedRow)
        else if primaryColumn in rows[0] then Success(Some(Cast(rows[0][primaryColumn], fields[|fields| - 1])))
        else Success(None)
  }

  /** `INSERT ... ON CONFLICT DO NOTHING RETURNING "id"` that inserts nothing
      answers with the `id` field and no row: as written this throws, where
      the intended result is an undefined `insertId`. */
  lemma NoReturnedRowThrowsAsWritten()
    ensures InsertIdAsWritten([], [Field("id", 1, Int8Oid)], "id") == Failure(NoReturnedRow)
    ensures InsertIdOf([], [Field("id", 1, Int8Oid)], "id") == None
  {
  }

  /** Whenever a row came back, or no field matched, the code as written and
      the corrected definition agree. */
  lemma {:induction false} InsertIdAsWrittenAgrees(rows: seq<map<string, Value>>, fields: seq<Field>, primaryColumn: string)
    requires |rows| > 0 || LastNamed(fields, primaryColumn).None?
    ensures InsertIdAsWritten(rows, fields, primaryColumn) == Success(InsertIdOf(rows, fields, primaryColumn))
  {
    if |fields| > 0 {
      var init := fields[..|fields| - 1];
      if |rows| == 0 {
        assert fields[|fields| - 1].name != primaryColumn;
        assert forall j | 0 <= j < |init| :: init[j].name == fields[j].name;
      }
      InsertIdAsWrittenAgrees(rows, init, primaryColumn);
    }
  }

  /** Client view of the insert branch on the driver answer of the
      example: a generated key `"42"` of type int8 in one row. */
  method InsertExample(spell: Spell) returns (out: Result<QueryResult, Error>)
    requires spell.model.primaryColumn == "id"
    ensures out == Success(Inserted(Some(Num(42)), 1))
  {
    var sql := "INSERT" + " INTO t (a) VALUES (?)";
    InsertInAnyCase(" INTO t (a) VALUES (?)", Some(spell));
    var raw := RawResult(ObjectRows([map["id" := Str("42")]]), [Field("id", 1, Int8Oid)], 1);
    InsertIdInt8();
    var sent;
    sent, out := LeoricQuery(WithOptions(QueryOptions(sql, false, Some(spell))), [Num(1)], raw);
  }

  /** Client view of the update branch: only the row count of 3 is kept. */
  method UpdateExample() returns (out: Result<QueryResult, Error>)
    ensures out == Success(Affected(3))
  {
    var sql := "UPDATE" + " t SET a = ?";
    UpdateIsMutation(" t SET a = ?", None);
    var raw := RawResult(ObjectRows([map["a" := Num(1)]]), [], 3);
    var sent;
    sent, out := LeoricQuery(SqlText(sql), [Num(1)], raw);
  }
}
