# Leoric PostgreSQL result shaping, modelled in Dafny

This project models the layer of the Leoric ORM that sits between the `pg`
driver and the ORM (`lib/clients/pg.js`). It has five pieces:

- `prepare` rewrites the `?` placeholders of a statement into PostgreSQL's
  positional parameters `$1`, `$2`, ... from left to right, and hands the
  values back untouched (module `Placeholders`, a method with a scanning loop).
- `escapeId` writes a PostgreSQL quoted identifier: the name in `"`, with
  every embedded `"` doubled. This is the rule in section 4.1.1 of the
  PostgreSQL manual, "Identifiers and Key Words" (module `Quoting`, with a
  decoder and the round trip in both directions).
- `cast` looks up a column's data type OID in the one-entry type table
  (OID 20, `int8`, converted with `Number`). It converts on a hit, keeps the
  value when the conversion throws, and passes the value through on a miss
  (module `PgCast`).
- `nest` regroups array-mode rows into `{qualifier: {column: value}}`
  objects. Each change of table OID between adjacent columns moves a cursor
  through the qualifier plan `[aliasName, ...joins]`. Table OID 0 is filed
  under `''` (module `Nesting`, nested loops proved against a closed-form
  qualifier function and a fold over the columns).
- `Leoric_query` picks a branch in a fixed order: nesting, `/^insert/i`,
  `/^(update|delete)/i`, anything else. It sends the prepared statement,
  with ` RETURNING "<primary column>"` appended for inserts, and shapes the
  driver's answer (module `Connection`).

The driver call is not modelled. `Connection.LeoricQuery` returns the
statement it would send. It takes the driver's answer `(rows, fields,
rowCount)` as a parameter. Column values are `Null`, the text the server
sent, or an integer. The int8 conversion is decimal parsing: an optional
sign and one or more digits. Text it cannot read takes the path on which
`Number` throws.

Files: `wrappers.dfy` (Option, Result), `strings.dfy` (character counts,
ASCII case folding), `decimal.dfy` (decimal printing and parsing),
`pg_cast.dfy`, `prepare.dfy`, `escape_id.dfy`, `nest.dfy`, `query.dfy`.

Three consequences of the code that are easy to miss:

- The qualifier plan needs one entry per run of adjacent columns of the
  same table, not one per distinct table. A table whose columns come back
  in two separate runs takes two entries (`Nesting.SelfJoinTakesTwoEntries`).
- A keyword must open the text. A statement with leading blanks takes the
  raw branch (`Connection.OtherStatements`).
- The insert branch throws when the key column comes back with no row
  (see Findings).

## Model

| member | source | states |
|---|---|---|
| `Decimal.ParseInt` | lib/clients/pg.js:28 | the int8 conversion on text: a result exists only for non-empty text, a negative one only after a leading `-`, and plain digits always give a non-negative number |
| `Decimal.ParseIntToString` | lib/clients/pg.js:15 | parsing the decimal text of any integer gives that integer back, which is what the int8 conversion relies on |
| `PgCast.PgTypeTable` | lib/clients/pg.js:14-16 | the type table has exactly one entry, OID 20 named `int8` and converted with `Number`; every other OID is a miss |
| `PgCast.Convert` | lib/clients/pg.js:27-31 | a conversion that succeeds yields a number, and a number converts to itself |
| `PgCast.Cast` | lib/clients/pg.js:23-34 | an OID missing from the type table leaves the value unchanged; otherwise the result is the value or a number |
| `PgCast.CastInt8Text` | lib/clients/pg.js:14-16 | an int8 column holding the decimal text of `n` is cast to the number `n` |
| `PgCast.CastInt8Unreadable` | lib/clients/pg.js:26-33 | text the int8 conversion cannot read is returned as it was, the catch path |
| `PgCast.CastIdempotent` | lib/clients/pg.js:23-34 | casting an already cast value changes nothing |
| `PgCast.CastInt8Null` | lib/clients/pg.js:23-34 | corrected: SQL NULL in an int8 column stays NULL |
| `PgCast.NumberAsWritten` | lib/clients/pg.js:28 | `Number` as called: agrees with the conversion on everything but NULL |
| `PgCast.CastAsWritten` | lib/clients/pg.js:23-34 | `cast` as written agrees with the corrected cast on every non-NULL value |
| `PgCast.CastAsWrittenNullIsZero` | lib/clients/pg.js:28 | as written, a NULL int8 column is cast to the number 0, unlike the corrected cast |
| `Placeholders.Marker` | lib/clients/pg.js:87 | the `$k` marker: at least two characters, opening with `$` |
| `Placeholders.Rewrite` | lib/clients/pg.js:87 | the replacement of every `?` from left to right; the result is never shorter than the input (its meaning is stated by the lemmas below) |
| `Placeholders.MarkerShape` | lib/clients/pg.js:87 | a `$k` marker holds exactly one `$` and no `?` |
| `Placeholders.Prepare` | lib/clients/pg.js:85-91 | the returned text is the left-to-right rewrite of every `?` into `$1`, `$2`, ...; the values come back unchanged |
| `Placeholders.RewriteStep` | lib/clients/pg.js:86-87 | one scan step: the counter is bumped exactly on a `?`, and that `?` becomes the marker numbered after those already seen |
| `Placeholders.RewriteAppend` | lib/clients/pg.js:87 | rewriting `a + b` rewrites `a`, then continues the numbering in `b` after the `?` count of `a` |
| `Placeholders.RewriteCons` | lib/clients/pg.js:87 | the first character is written as its marker or as itself, and the counter moves only for `?` |
| `Placeholders.KthPlaceholder` | lib/clients/pg.js:87 | the `?` that follows `k - 1` others is replaced by `$k`, whatever text surrounds it, quotes included |
| `Placeholders.OtherCharKept` | lib/clients/pg.js:87 | every character other than `?` is kept in its place |
| `Placeholders.RewriteNoPlaceholder` | lib/clients/pg.js:87 | SQL without `?` comes back identical |
| `Placeholders.RewriteCounts` | lib/clients/pg.js:87 | no `?` survives, and the number of `$` grows by exactly the number of `?` |
| `Quoting.DoubleQuotes` | lib/clients/pg.js:125 | doubling the quotes lengthens the text by its number of `"` |
| `Quoting.EscapeId` | lib/clients/pg.js:124-126 | the result starts and ends with `"` and its length is `|s| + 2 + count('"', s)` |
| `Quoting.UndoubleDoubleQuotes` | lib/clients/pg.js:125 | undoubling the doubled text recovers it |
| `Quoting.DoubleQuotesUndouble` | lib/clients/pg.js:125 | any text that undoubles is the doubling of what it undoubles to |
| `Quoting.EscapeRoundTrip` | lib/clients/pg.js:124-126 | decoding `escapeId(s)` gives `s` back |
| `Quoting.UnescapeExact` | lib/clients/pg.js:124-126 | every text the decoder accepts is the escaping of its decoding, so escaping is one to one onto well-formed quoted identifiers |
| `Quoting.EmbeddedQuoteDoubled` | lib/clients/pg.js:125 | `escapeId('a"b')` is `"a""b"` |
| `Nesting.Qualifiers` | lib/clients/pg.js:56 | the plan holds the model's alias first, then the join keys in their order |
| `Nesting.QualifierAt` | lib/clients/pg.js:66-67 | the qualifier the cursor loop gives column `i` in closed form: `''` for table OID 0, otherwise an entry of the plan |
| `Nesting.PutCell` | lib/clients/pg.js:70-71 | after storing, the cell under the qualifier and name holds the value |
| `Nesting.PutCellFrame` | lib/clients/pg.js:70-71 | storing a cell adds at most its qualifier and its name, and leaves every other cell as it was |
| `Nesting.NestPrefix` | lib/clients/pg.js:64-72 | the object after the first `n` columns; the last column seen is present under its qualifier and name |
| `Nesting.NestRow` | lib/clients/pg.js:59-72 | the object one row becomes, as the fold of `NestPrefix` over all columns; its content is stated by `Nesting.NestRowContents` |
| `Nesting.StartsRun` | lib/clients/pg.js:66-67 | column `j` moves the cursor: its table OID is not 0 and differs from the previous column's, the first column always differing from the initial `undefined` |
| `Nesting.RunsUpTo` | lib/clients/pg.js:60-67 | the value of `tableIndex` before column `n`: how many of the first `n` columns have a non-zero table OID that differs from the previous column's; never more than `n` |
| `Nesting.RunsMonotone` | lib/clients/pg.js:67 | the cursor never moves back as the columns are walked |
| `Nesting.RunsAtLeastOne` | lib/clients/pg.js:66-67 | once a column of a real table has been seen, the cursor has moved at least once |
| `Nesting.NestOneRow` | lib/clients/pg.js:59-72 | the per-row loop, starting from a fresh object, cursor 0 and no previous table, builds exactly the regrouped row |
| `Nesting.Nest` | lib/clients/pg.js:54-77 | one result object per input row, in the same order, each built independently of the other rows; `fields` is returned unchanged |
| `Nesting.QualifierContinuesRun` | lib/clients/pg.js:66-69 | a column with the same table OID as the previous one keeps its qualifier |
| `Nesting.QualifierOfNewRun` | lib/clients/pg.js:66-68 | a column whose non-zero table OID differs from the previous one takes `qualifiers[tableIndex]`, where `tableIndex` counts the earlier changes |
| `Nesting.NoTableColumn` | lib/clients/pg.js:67 | table OID 0 is filed under `''` and does not move the cursor |
| `Nesting.FirstTableIsModel` | lib/clients/pg.js:56-67 | the first real table of a row is filed under the model's alias |
| `Nesting.SelfJoinTakesTwoEntries` | lib/clients/pg.js:64-69 | qualifiers are assigned by position: a table whose columns come back in two runs takes two plan entries |
| `Nesting.NestPrefixKeys` | lib/clients/pg.js:70-71 | after any number of columns, the qualifiers present are those of the columns seen, and each holds exactly the names of its columns |
| `Nesting.NestPrefixValue` | lib/clients/pg.js:70-71 | the value under a qualifier and name is the cast of the last column stored there |
| `Nesting.NestRowContents` | lib/clients/pg.js:64-72 | a regrouped row has a key for exactly the qualifiers of its columns, under each exactly the names of its columns, and for each the cast value of the last such column, so a later column of the same name overwrites |
| `Nesting.ArticlesWithUsersQualifiers` | lib/clients/pg.js:64-69 | columns of tables 1, 1, 2, 2 with the plan `['articles', 'users']` are filed under `articles`, `articles`, `users`, `users` |
| `Nesting.ArticlesWithUsers` | lib/clients/pg.js:54-77 | the row `[1, 'Post', 7, 'Alice']` of two joined tables becomes `{articles: {id: 1, title: 'Post'}, users: {id: 7, name: 'Alice'}}` |
| `Connection.Normalize` | lib/clients/pg.js:95 | a bare SQL string becomes options with that SQL, nesting off and no spell; an options object is kept as it is |
| `Connection.Classify` | lib/clients/pg.js:99-116 | the branch in order of precedence: nesting exactly when requested, insert exactly when not nesting and the text opens with `insert` in any case, row counts only for `update`/`delete`, raw only when none of the three keywords opens the text |
| `Connection.LastNamed` | lib/clients/pg.js:109-113 | finds the last field with the given name, or reports that none has it |
| `Connection.InsertIdOf` | lib/clients/pg.js:108-113 | corrected: `insertId` is defined exactly when some field has the primary column's name and a row with that column came back, and is then the first row's value cast with the last such field |
| `Connection.ExtractInsertId` | lib/clients/pg.js:108-113 | `insertId` is defined exactly when some field has the primary column's name and a row with that column came back; it is then the first row's value cast with the last such field |
| `Connection.LeoricQuery` | lib/clients/pg.js:94-123 | branch by branch: the statement sent (prepared text, same values, array mode only for nesting, ` RETURNING` plus the escaped primary column for inserts) and the result (`nest` output, `{insertId, affectedRows: rowCount}`, `{affectedRows: rowCount}`, or the raw answer), with a missing spell throwing |
| `Strings.StartsWithIgnoringCase` | lib/clients/pg.js:103-116 | `s` matches `/^kw/i` for a lower-case ASCII keyword: the first `|kw|` characters equal the keyword once `A`-`Z` are folded to lower case |
| `Strings.NonAsciiNeverMatches` | lib/clients/pg.js:103-116 | only `A`-`Z` fold, as a JavaScript `/i` expression without the `u` flag does: a non-ASCII character in the keyword's span makes the test fail |
| `Connection.KeywordPrefix` | lib/clients/pg.js:103 | the keyword test depends only on the first characters of the statement |
| `Connection.SixLetterMatch` | lib/clients/pg.js:103 | the keyword test succeeds when each letter matches in lower case |
| `Connection.ClassifyIgnoresCase` | lib/clients/pg.js:103-116 | lower-casing the statement does not change its branch |
| `Connection.NestWinsOverInsert` | lib/clients/pg.js:99-103 | a nesting request wins over an `insert` keyword |
| `Connection.InsertInAnyCase` | lib/clients/pg.js:103 | `INSERT` and `Insert` both select the insert branch |
| `Connection.UpdateIsMutation` | lib/clients/pg.js:116 | `UPDATE ...` selects the row-count branch |
| `Connection.DeleteIsMutation` | lib/clients/pg.js:116 | `delete ...` selects the row-count branch |
| `Connection.OtherStatements` | lib/clients/pg.js:120-122 | ` insert ...` with a leading blank, and `SELECT ...`, return the raw answer |
| `Connection.BareInsertThrows` | lib/clients/pg.js:95-104 | a bare SQL string that starts with `insert` classifies as insert with no spell, which `Connection.LeoricQuery` answers with `Failure(SpellUndefined)` and nothing sent |
| `Connection.InsertIdMissingColumn` | lib/clients/pg.js:108-114 | with no field named after the primary column, `insertId` is undefined |
| `Connection.InsertIdInt8` | lib/clients/pg.js:109-111 | a returned int8 key with the text `"42"` gives `insertId` 42 |
| `Connection.InsertIdAsWritten` | lib/clients/pg.js:108-113 | the scan as written throws exactly when no row came back and some field has the primary column's name, and the error is the missing-row TypeError |
| `Connection.NoReturnedRowThrowsAsWritten` | lib/clients/pg.js:111 | as written, an insert answered with the key field but no row throws; corrected, `insertId` is undefined |
| `Connection.InsertIdAsWrittenAgrees` | lib/clients/pg.js:108-113 | whenever a row came back, or no field matched, the scan as written and the corrected one agree |
| `Connection.InsertExample` | lib/clients/pg.js:103-114 | an `INSERT` whose answer carries the int8 key text `"42"` in one row, with row count 1, yields `{insertId: 42, affectedRows: 1}` |
| `Connection.UpdateExample` | lib/clients/pg.js:116-118 | an `UPDATE` whose answer has row count 3 yields `{affectedRows: 3}` and nothing of the rows |

## Left out

- Pool construction and connection acquisition (`Leoric_pg`, `Leoric_getConnection`, lib/clients/pg.js:129-144): driver wiring and `Object.assign` mixins, with no logic of their own.
- The driver calls and `await` (lib/clients/pg.js:100, 106, 117, 121): `Connection.LeoricQuery` returns the statement it would send and takes the driver's answer as a parameter. Errors the driver raises, which the code propagates unchanged, are not modelled.
- The debug traces (lib/clients/pg.js:30, 89): their output is not modelled. The second one calls `SqlString.escape` from the `sqlstring` package, which is not part of this model.
- Placeholders.Prepare: takes `values` as a sequence, so it cannot express a call without values. The trace argument at lib/clients/pg.js:89 is evaluated even when tracing is off, and it reads `values[i++]` for every `?`. So `Leoric_query('SELECT ?')` with no `values` throws a TypeError inside `prepare`, before any statement is sent. The same holds for Connection.LeoricQuery. A `values` array shorter than the number of `?` does not throw: `SqlString.escape(undefined)` is `NULL`.
- PgCast.Convert: models `Number` as decimal parsing (an optional sign, then digits). It does not model JavaScript's `Number` on other text: blanks are not trimmed, `""` is not 0, hexadecimal and exponent forms are not read, and text that is not a number takes the catch path instead of producing `NaN`. Precision loss above 2^53 is not modelled either. The server sends int8 values in plain decimal, which this covers.
- Nesting.Nest: requires the qualifier plan to have an entry for every run of table columns (`Covers`). With a shorter plan, JavaScript files columns under an `undefined` key, and the model does not capture that.
- Nesting.Nest: requires every array row to have at least as many cells as there are fields. The driver guarantees this; a shorter row would store `undefined`.
- Nesting.Spell: the join aliases are given as an ordered list, the order `Object.keys(spell.joins)` produces. JavaScript's rule that integer-like keys are listed first is not modelled.
- Result objects are modelled as maps. Special keys such as `__proto__`, which a JavaScript object treats differently, are ordinary keys here.
- Connection.InsertIdOf: when the first returned row has no property named after the primary column, the model leaves `insertId` undefined. JavaScript would cast `undefined`, which gives `NaN` for an int8 field. The driver always keys a row by every field name, so this does not arise.
- Connection.LeoricQuery: when a nesting request has no spell, the statement is still sent and the call then throws. The model reports the statement as sent and the result as `SpellUndefined`; the effect of the executed statement on the database is not modelled.
- `rowCount` is a natural number; the driver's `null` row count for some commands is not modelled.
- Values the driver parses itself (booleans, floats, dates, JSON) are not represented; `cast` and `nest` pass them through unchanged.
- The field-name comparison in the insert branch uses `==`; field names and the primary column are strings, so this is plain string equality.
- The model uses the corrected `PgCast.Cast` (NULL stays NULL) and the corrected `Connection.InsertIdOf` throughout, as the Findings below describe.

## Findings

| source | as written | input that shows it | evidently intended | confidence | as-written member | corrected member |
|---|---|---|---|---|---|---|
| lib/clients/pg.js:28 | `Number(value)` is applied to SQL NULL too, and `Number(null)` is 0, so a NULL int8 column comes back as 0 | `cast(null, {dataTypeID: 20})` | a NULL stays `null`; the doc comment of `cast` speaks only of converting returned strings | not executed; follows from the ECMAScript `ToNumber(null)` rule | `PgCast.CastAsWrittenNullIsZero` | `PgCast.CastInt8Null` |
| lib/clients/pg.js:111 | `rows[0][primaryColumn]` is read whenever a field matches, which throws a TypeError when no row came back | an insert answered with `fields: [{name: 'id', dataTypeID: 20}]` and `rows: []`, as for `INSERT ... ON CONFLICT DO NOTHING` that inserts nothing | `insertId` undefined and `affectedRows` 0 | not executed | `Connection.NoReturnedRowThrowsAsWritten` | `Connection.ExtractInsertId` |
