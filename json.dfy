/**
 * A parsed JSON value.  An object is a Python dict (distinct keys, in
 * document order); turning JSON text into this tree is not modelled.
 */
module Json {
  import opened Wrappers
  import opened OrderedDicts

  datatype Json =
    | JNull
    | JBool(b: bool)
    | JNumber(n: int)
    | JString(s: string)
    | JArray(items: seq<Json>)
    | JObject(fields: Dict<string, Json>)

  /**
   * A pydantic record model `T`: validating a JSON value may produce a `T`,
   * and `model_dump` turns a `T` back into JSON.
   */
  datatype RecordModel<!T> = RecordModel(validate: Json -> Option<T>, dump: T -> Json)

  /** Validating what `model_dump` produced gives the record back. */
  ghost predicate RoundTrips<T(!new)>(model: RecordModel<T>) {
    forall t :: model.validate(model.dump(t)) == Some(t)
  }

  /** A `str` field: present and a JSON string. */
  function GetString(fields: Dict<string, Json>, key: string): Option<string> {
    var v := Get(fields, key);
    if v.Some? && v.value.JString? then Some(v.value.s) else None
  }

  /** Every key of the object is one of `allowed` (pydantic's `extra="forbid"`). */
  predicate OnlyKeys(fields: Dict<string, Json>, allowed: seq<string>) {
    forall i :: 0 <= i < |fields| ==> fields[i].0 in allowed
  }
}
