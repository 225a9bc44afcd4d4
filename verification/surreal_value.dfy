/** The dynamic document values a SurrealDB query returns: a closed sum type
    over the shapes a stored field can take, and `Object`, a map from field
    names to values (keys unique, no order). */
module SurrealValue {
  import opened Wrappers

  /** A stored timestamp. The wrapped instant is opaque to the model; only its
      identity matters. */
  datatype Datetime = Instant(instant: int)

  /** The id component of a record link (`Thing`): a number, a string, or a
      compound array / object key. */
  datatype RecordId =
    | IdNumber(number: int)
    | IdString(text: string)
    | IdArray(items: seq<Value>)
    | IdObject(fields: map<string, Value>)

  /** A document value. `NoneValue` is the store's NONE and `Null` its NULL;
      `Other` stands for every variant of the store's value
      type that nothing in this model inspects (durations, UUIDs, geometry,
      bytes, ...). */
  datatype Value =
    | NoneValue
    | Null
    | Bool(flag: bool)
    | Number(number: int)
    | Strand(text: string)
    | Datetime(datetime: Datetime)
    | Array(items: seq<Value>)
    | Object(fields: map<string, Value>)
    | Thing(table: string, id: RecordId)
    | Other(kind: string)

  /** A document: field name to value. */
  type Object = map<string, Value>

  /** `Object::default()`: the document with no fields. */
  const EmptyObject: Object := map[]

  /** `Object::get`: the value stored under `key`, if any. */
  function Get(obj: Object, key: string): Option<Value> {
    if key in obj then Some(obj[key]) else None
  }
}
