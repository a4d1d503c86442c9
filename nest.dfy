/** `nest` (lib/clients/pg.js:54-77): regroups array-mode rows into
    `{qualifier: {column: value}}` objects. */
module Nesting {
  import opened Wrappers
  import opened PgCast

  /** The part of the spell's model that this layer reads. */
  datatype ModelInfo = ModelInfo(aliasName: string, primaryColumn: string)

  /** The part of a spell that this layer reads: its model and the keys of
      its `joins` object, in the order `Object.keys` lists them. */
  datatype Spell = Spell(model: ModelInfo, joins: seq<string>)

  /** One regrouped row: qualifier, then column name, then value. */
  type NestedRow = map<string, map<string, Value>>

  /** The qualifier plan `[spell.Model.aliasName, ...Object.keys(spell.joins)]`. */
  function Qualifiers(spell: Spell): (plan: seq<string>)
    ensures |plan| == |spell.joins| + 1 && plan[0] == spell.model.aliasName
    ensures plan[1..] == spell.joins
  {
    [spell.model.aliasName] + spell.joins
  }

  /** Column `j` begins a run of a real table: its table OID is not 0 and
      differs from the previous column's (the first column always differs
      from the initial `undefined`). */
  predicate StartsRun(fields: seq<Field>, j: nat)
    requires j < |fields|
  {
    fields[j].tableID != 0 && (j == 0 || fields[j - 1].tableID != fields[j].tableID)
  }

  /** How many runs begin among the first `n` columns: the value of the
      cursor `tableIndex` before column `n`. */
  function RunsUpTo(fields: seq<Field>, n: nat): (c: nat)
    requires n <= |fields|
    ensures c <= n
  {
    if n == 0 then 0 else RunsUpTo(fields, n - 1) + (if StartsRun(fields, n - 1) then 1 else 0)
  }

  lemma {:induction false} RunsMonotone(fields: seq<Field>, m: nat, n: nat)
    requires m <= n <= |fields|
    ensures RunsUpTo(fields, m) <= RunsUpTo(fields, n)
    decreases n - m
  {
    if m < n {
      RunsMonotone(fields, m, n - 1);
    }
  }

  lemma {:induction false} RunsAtLeastOne(fields: seq<Field>, i: nat)
    requires i < |fields| && fields[i].tableID != 0
    ensures RunsUpTo(fields, i + 1) >= 1
  {
    if !StartsRun(fields, i) {
      RunsAtLeastOne(fields, i - 1);
    }
  }

  /** The plan has an entry for every run of a real table. */
  predicate Covers(fields: seq<Field>, plan: seq<string>)
  {
    RunsUpTo(fields, |fields|) <= |plan|
  }

  /** The qualifier of column `i`: `''` for table OID 0, otherwise the plan
      entry of the run the column belongs to. */
  function QualifierAt(fields: seq<Field>, plan: seq<string>, i: nat): (q: string)
    requires i < |fields| && Covers(fields, plan)
    ensures fields[i].tableID == 0 ==> q == ""
    ensures fields[i].tableID != 0 ==> q in plan
  {
    if fields[i].tableID == 0 then ""
    else
      RunsAtLeastOne(fields, i);
      RunsMonotone(fields, i + 1, |fields|);
      plan[RunsUpTo(fields, i + 1) - 1]
  }

  /** `(result[q] || (result[q] = {}))[name] = v` */
  function PutCell(m: NestedRow, q: string, name: string, v: Value): (r: NestedRow)
    ensures q in r && name in r[q] && r[q][name] == v
  {
    m[q := (if q in m then m[q] else map[])[name := v]]
  }

  /** Storing a cell adds at most its qualifier and its name, and leaves
      every other cell as it was. */
  lemma PutCellFrame(m: NestedRow, q: string, name: string, v: Value)
    ensures PutCell(m, q, name, v).Keys == m.Keys + {q}
    ensures PutCell(m, q, name, v)[q].Keys == (if q in m then m[q].Keys else {}) + {name}
    ensures forall p | p in m && p != q :: PutCell(m, q, name, v)[p] == m[p]
    ensures forall k | q in m && k in m[q] && k != name :: PutCell(m, q, name, v)[q][k] == m[q][k]
  {
  }

  /** The object built from the first `n` columns of `row`. */
  function NestPrefix(row: seq<Value>, fields: seq<Field>, plan: seq<string>, n: nat): (r: NestedRow)
    requires n <= |fields| <= |row| && Covers(fields, plan)
    ensures n > 0 ==> QualifierAt(fields, plan, n - 1) in r && fields[n - 1].name in r[QualifierAt(fields, plan, n - 1)]
  {
    if n == 0 then map[]
    else PutCell(NestPrefix(row, fields, plan, n - 1), QualifierAt(fields, plan, n - 1),
                 fields[n - 1].name, Cast(row[n - 1], fields[n - 1]))
  }

  /** The object one row is regrouped into. */
  function NestRow(row: seq<Value>, fields: seq<Field>, plan: seq<string>): (r: NestedRow)
    requires |fields| <= |row| && Covers(fields, plan)
  {
    NestPrefix(row, fields, plan, |fields|)
  }

  /** Column `i` is stored under qualifier `q` and key `name`. */
  predicate StoredAt(fields: seq<Field>, plan: seq<string>, i: nat, q: string, name: string)
    requires i < |fields| && Covers(fields, plan)
  {
    QualifierAt(fields, plan, i) == q && fields[i].name == name
  }

  /** `nest(rows, fields, spell)`: one object per row, in order; `fields`
      is handed back as it came. */
  method Nest(rows: seq<seq<Value>>, fields: seq<Field>, spell: Spell)
    returns (results: seq<NestedRow>, fieldsOut: seq<Field>)
    requires forall r | r in rows :: |fields| <= |r|
    requires Covers(fields, Qualifiers(spell))
    ensures |results| == |rows|
    ensures forall k | 0 <= k < |rows| :: results[k] == NestRow(rows[k], fields, Qualifiers(spell))
    ensures fieldsOut == fields
  {
    var qualifiers := Qualifiers(spell);
    results := [];
    for k := 0 to |rows|
      invariant |results| == k
      invariant forall j | 0 <= j < k :: results[j] == NestRow(rows[j], fields, qualifiers)
    {
      assert rows[k] in rows;
      var result := NestOneRow(rows[k], fields, qualifiers);
      results := results + [result];
    }
    fieldsOut := fields;
  }

  /** The body of the row loop of `nest`: a fresh `result`, a cursor
      `tableIndex` at 0 and no previous table, then one step per column. */
  method NestOneRow(row: seq<Value>, fields: seq<Field>, qualifiers: seq<string>)
    returns (result: NestedRow)
    requires |fields| <= |row| && Covers(fields, qualifiers)
    ensures result == NestRow(row, fields, qualifiers)
  {
    result := map[];
    var tableIndex := 0;
    var tableIDWas: Option<int> := None;
    var qualifier := "";
    for i := 0 to |fields|
      invariant tableIndex == RunsUpTo(fields, i)
      invariant tableIDWas == if i == 0 then None else Some(fields[i - 1].tableID)
      invariant i > 0 ==> qualifier == QualifierAt(fields, qualifiers, i - 1)
      invariant result == NestPrefix(row, fields, qualifiers, i)
    {
      var field := fields[i];
      if tableIDWas != Some(field.tableID) {
        if field.tableID != 0 {
          QualifierOfNewRun(fields, qualifiers, i);
          qualifier := qualifiers[tableIndex];
          tableIndex := tableIndex + 1;
        } else {
          qualifier := "";
        }
        tableIDWas := Some(field.tableID);
      } else {
        QualifierContinuesRun(fields, qualifiers, i);
      }
      assert qualifier == QualifierAt(fields, qualifiers, i);
      var obj := if qualifier in result then result[qualifier] else map[];
      result := result[qualifier := obj[field.name := Cast(row[i], field)]];
    }
  }

  /** A column of the same table as the one before it keeps its qualifier. */
  lemma QualifierContinuesRun(fields: seq<Field>, plan: seq<string>, i: nat)
    requires 0 < i < |fields| && Covers(fields, plan)
    requires fields[i].tableID == fields[i - 1].tableID
    ensures QualifierAt(fields, plan, i) == QualifierAt(fields, plan, i - 1)
  {
  }

  /** A column that begins a run takes the plan entry at the cursor, which is
      the number of runs before it. */
  lemma QualifierOfNewRun(fields: seq<Field>, plan: seq<string>, i: nat)
    requires i < |fields| && Covers(fields, plan) && StartsRun(fields, i)
    ensures RunsUpTo(fields, i) < |plan|
    ensures QualifierAt(fields, plan, i) == plan[RunsUpTo(fields, i)]
  {
    RunsMonotone(fields, i + 1, |fields|);
  }

  /** Columns with table OID 0 go under the empty qualifier and do not move
      the cursor. */
  lemma NoTableColumn(fields: seq<Field>, plan: seq<string>, i: nat)
    requires i < |fields| && Covers(fields, plan) && fields[i].tableID == 0
    ensures QualifierAt(fields, plan, i) == ""
    ensures RunsUpTo(fields, i + 1) == RunsUpTo(fields, i)
  {
  }

  /** The first real table of a row is filed under the model's alias. */
  lemma FirstTableIsModel(fields: seq<Field>, spell: Spell, i: nat)
    requires i < |fields| && Covers(fields, Qualifiers(spell))
    requires fields[i].tableID != 0 && RunsUpTo(fields, i) == 0
    ensures QualifierAt(fields, Qualifiers(spell), i) == spell.model.aliasName
  {
    var plan := Qualifiers(spell);
    if i > 0 && fields[i - 1].tableID == fields[i].tableID {
      RunsAtLeastOne(fields, i - 1);
    }
    assert StartsRun(fields, i);
    QualifierOfNewRun(fields, plan, i);
  }

  /** Qualifier assignment is by position: a table whose columns come back in
      two separate runs takes two plan entries. */
  lemma SelfJoinTakesTwoEntries(a: Field, b: Field, c: Field, plan: seq<string>)
    requires a.tableID == c.tableID != 0 && b.tableID != 0 && b.tableID != a.tableID
    requires |plan| >= 3
    ensures Covers([a, b, c], plan)
    ensures QualifierAt([a, b, c], plan, 0) == plan[0]
    ensures QualifierAt([a, b, c], plan, 2) == plan[2]
  {
    var fields := [a, b, c];
    assert RunsUpTo(fields, 1) == 1;
    assert StartsRun(fields, 1) && RunsUpTo(fields, 2) == 2;
    assert StartsRun(fields, 2) && RunsUpTo(fields, 3) == 3;
  }

  /** The qualifiers of a regrouped prefix are those of its columns, and each
      qualifier's keys are the names of its columns. */
  lemma {:induction false} NestPrefixKeys(row: seq<Value>, fields: seq<Field>, plan: seq<string>, n: nat,
                                          q: string, name: string)
    requires n <= |fields| <= |row| && Covers(fields, plan)
    ensures q in NestPrefix(row, fields, plan, n) <==>
      exists i :: 0 <= i < n && QualifierAt(fields, plan, i) == q
    ensures (q in NestPrefix(row, fields, plan, n) && name in NestPrefix(row, fields, plan, n)[q]) <==>
      exists i :: 0 <= i < n && StoredAt(fields, plan, i, q, name)
  {
    if n > 0 {
      NestPrefixKeys(row, fields, plan, n - 1, q, name);
      if QualifierAt(fields, plan, n - 1) == q && fields[n - 1].name == name {
        assert StoredAt(fields, plan, n - 1, q, name);
      }
    }
  }

  /** The value under `q` and `name` is the cast of the last column stored
      there: a later column of the same name and qualifier overwrites. */
  lemma {:induction false} NestPrefixValue(row: seq<Value>, fields: seq<Field>, plan: seq<string>, n: nat,
                                           i: nat, q: string, name: string)
    requires n <= |fields| <= |row| && Covers(fields, plan)
    requires i < n && StoredAt(fields, plan, i, q, name)
    requires forall j | i < j < n :: !StoredAt(fields, plan, j, q, name)
    ensures q in NestPrefix(row, fields, plan, n)
    ensures name in NestPrefix(row, fields, plan, n)[q]
    ensures NestPrefix(row, fields, plan, n)[q][name] == Cast(row[i], fields[i])
  {
    if i < n - 1 {
      NestPrefixValue(row, fields, plan, n - 1, i, q, name);
      assert !StoredAt(fields, plan, n - 1, q, name);
    }
  }

  /** What one regrouped row holds: a qualifier exactly for the qualifiers
      of its columns, under it exactly the names of those columns, and for
      each of them the cast value of the last such column. */
  lemma NestRowContents(row: seq<Value>, fields: seq<Field>, plan: seq<string>, q: string, name: string)
    requires |fields| <= |row| && Covers(fields, plan)
    ensures q in NestRow(row, fields, plan) <==>
      exists i :: 0 <= i < |fields| && QualifierAt(fields, plan, i) == q
    ensures (q in NestRow(row, fields, plan) && name in NestRow(row, fields, plan)[q]) <==>
      exists i :: 0 <= i < |fields| && StoredAt(fields, plan, i, q, name)
    ensures forall i | 0 <= i < |fields| && StoredAt(fields, plan, i, q, name) &&
        (forall j | i < j < |fields| :: !StoredAt(fields, plan, j, q, name)) ::
      q in NestRow(row, fields, plan) && name in NestRow(row, fields, plan)[q] &&
      NestRow(row, fields, plan)[q][name] == Cast(row[i], fields[i])
  {
    NestPrefixKeys(row, fields, plan, |fields|, q, name);
    forall i | 0 <= i < |fields| && StoredAt(fields, plan, i, q, name) &&
        (forall j | i < j < |fields| :: !StoredAt(fields, plan, j, q, name))
      ensures q in NestRow(row, fields, plan) && name in NestRow(row, fields, plan)[q] &&
        NestRow(row, fields, plan)[q][name] == Cast(row[i], fields[i])
    {
      NestPrefixValue(row, fields, plan, |fields|, i, q, name);
    }
  }

  lemma ArticlesWithUsersQualifiers(fields: seq<Field>, plan: seq<string>)
    requires fields == [Field("id", 1, 23), Field("title", 1, 25), Field("id", 2, 23), Field("name", 2, 25)]
    requires plan == ["articles", "users"]
    ensures Covers(fields, plan)
    ensures QualifierAt(fields, plan, 0) == "articles" && QualifierAt(fields, plan, 1) == "articles"
    ensures QualifierAt(fields, plan, 2) == "users" && QualifierAt(fields, plan, 3) == "users"
  {
    assert RunsUpTo(fields, 1) == 1 && RunsUpTo(fields, 2) == 1;
    assert RunsUpTo(fields, 3) == 2 && RunsUpTo(fields, 4) == 2;
  }

  /** Two joined tables, `articles` (table OID 1) and `users` (table OID 2). */
  lemma ArticlesWithUsers()
    ensures
      var fields := [Field("id", 1, 23), Field("title", 1, 25), Field("id", 2, 23), Field("name", 2, 25)];
      var plan := ["articles", "users"];
      Covers(fields, plan) &&
      NestRow([Num(1), Str("Post"), Num(7), Str("Alice")], fields, plan) ==
        map["articles" := map["id" := Num(1), "title" := Str("Post")],
            "users" := map["id" := Num(7), "name" := Str("Alice")]]
  {
    var fields := [Field("id", 1, 23), Field("title", 1, 25), Field("id", 2, 23), Field("name", 2, 25)];
    var plan := ["articles", "users"];
    var row := [Num(1), Str("Post"), Num(7), Str("Alice")];
    ArticlesWithUsersQualifiers(fields, plan);
    assert NestPrefix(row, fields, plan, 2) == map["articles" := map["id" := Num(1), "title" := Str("Post")]];
    assert NestPrefix(row, fields, plan, 3) ==
      map["articles" := map["id" := Num(1), "title" := Str("Post")], "users" := map["id" := Num(7)]];
  }
}
