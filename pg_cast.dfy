/** The type table keyed by the RowDescription data type OID, and `cast`
    (lib/clients/pg.js:14-34). */
module PgCast {
  import opened Wrappers
  import Decimal

  /** The column values this layer distinguishes: SQL NULL, text (which is
      how the driver hands over an int8 column, having no parser of its own
      registered for it), and numbers. Values the driver parses itself
      (booleans, floats, dates, JSON) are not represented; `cast` passes
      every unregistered OID through and `nest` only copies values. */
  datatype Value = Null | Str(s: string) | Num(n: int)

  /** One entry of the RowDescription field list. */
  datatype Field = Field(name: string, tableID: int, dataTypeID: int)

  /** The conversion an entry applies; only `Number` is registered. */
  datatype Conversion = ToNumber

  datatype PgTypeEntry = PgTypeEntry(oid: int, typname: string, conversion: Conversion)

  const Int8Oid: int := 20

  /** `pgType`: one entry, OID 20 (`int8`) converted with `Number`. */
  const PgTypes: map<int, PgTypeEntry> := map[Int8Oid := PgTypeEntry(Int8Oid, "int8", ToNumber)]

  /** The table has exactly one entry: OID 20, named `int8`, converted with
      `Number`; every other OID is a miss. */
  lemma PgTypeTable(oid: int)
    ensures oid in PgTypes <==> oid == 20
    ensures oid in PgTypes ==> PgTypes[oid] == PgTypeEntry(20, "int8", ToNumber)
  {
  }

  /** Applies a conversion; `None` is the path on which the conversion throws.
      Numbers convert to themselves, decimal text to its value; NULL and text
      that is not an optionally signed digit string do not convert. */
  function Convert(c: Conversion, v: Value): (r: Option<Value>)
    ensures r.Some? ==> r.value.Num?
    ensures v.Num? ==> r == Some(v)
  {
    match v
    case Num(_) => Some(v)
    case Null => None
    case Str(s) =>
      match Decimal.ParseInt(s)
      case Some(n) => Some(Num(n))
      case None => None
  }

  /** `cast(value, field)`: convert on a table hit, keep the value when the
      conversion throws, pass the value through on a miss. */
  function Cast(v: Value, f: Field): (r: Value)
    ensures f.dataTypeID !in PgTypes ==> r == v
    ensures r == v || r.Num?
  {
    if f.dataTypeID in PgTypes then
      match Convert(PgTypes[f.dataTypeID].conversion, v)
      case Some(c) => c
      case None => v
    else v
  }

  /** An int8 column whose text is the decimal form of `n` is cast to `n`. */
  lemma CastInt8Text(n: int, f: Field)
    requires f.dataTypeID == Int8Oid
    ensures Cast(Str(Decimal.IntToString(n)), f) == Num(n)
  {
    Decimal.ParseIntToString(n);
  }

  /** Text an int8 conversion cannot read is returned as it was. */
  lemma CastInt8Unreadable(s: string, f: Field)
    requires f.dataTypeID == Int8Oid
    requires Decimal.ParseInt(s).None?
    ensures Cast(Str(s), f) == Str(s)
  {
  }

  /** Casting twice is casting once. */
  lemma CastIdempotent(v: Value, f: Field)
    ensures Cast(Cast(v, f), f) == Cast(v, f)
  {
  }

  /** SQL NULL in an int8 column stays NULL. */
  lemma CastInt8Null(f: Field)
    requires f.dataTypeID == Int8Oid
    ensures Cast(Null, f) == Null
  {
  }

  /** JavaScript's `Number` as the source calls it: it agrees with `Convert`
      except that `Number(null)` is 0. */
  function NumberAsWritten(v: Value): (r: Option<Value>)
    ensures v != Null ==> r == Convert(ToNumber, v)
  {
    if v == Null then Some(Num(0)) else Convert(ToNumber, v)
  }

  /** `cast` as written: `Number(null) == 0`, and text is read as in `Convert`. */
  function CastAsWritten(v: Value, f: Field): (r: Value)
    ensures v != Null ==> r == Cast(v, f)
  {
    if f.dataTypeID in PgTypes then
      match NumberAsWritten(v)
      case Some(c) => c
      case None => v
    else v
  }

  /** As written, a NULL int8 column comes back as the number 0. */
  lemma CastAsWrittenNullIsZero(f: Field)
    requires f.dataTypeID == Int8Oid
    ensures CastAsWritten(Null, f) == Num(0) != Cast(Null, f)
  {
  }
}
