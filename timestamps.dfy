/**
 * The `Timestamp` model of both variants.  Its before-validator runs on the
 * raw input of every validation: it keeps a supplied `created_at`, defaults
 * it to now otherwise, and always sets `updated_at` to now.  Datetimes are
 * tick counts (`nat`), written in JSON as numbers; `now` is the one instant
 * every clock read of an operation returns.
 */
module Timestamps {
  import opened Wrappers
  import opened OrderedDicts
  import opened Json
  import opened Errors

  const CreatedAt: string := "created_at"
  const UpdatedAt: string := "updated_at"

  datatype Timestamp = Timestamp(createdAt: nat, updatedAt: nat)

  /** A datetime field's value: a JSON number that is a tick count. */
  function AsInstant(v: Option<Json>): (r: Option<nat>)
    ensures r.Some? <==> v.Some? && v.value.JNumber? && v.value.n >= 0
    ensures r.Some? ==> v.value == JNumber(r.value)
  {
    if v.Some? && v.value.JNumber? && v.value.n >= 0 then Some(v.value.n as nat) else None
  }

  /** What the validator does to the keys of its dict. */
  function Stamp(values: Dict<string, Json>, now: nat): Dict<string, Json> {
    var withCreated := if CreatedAt in Keys(values) then values else Insert(values, CreatedAt, JNumber(now));
    Insert(withCreated, UpdatedAt, JNumber(now))
  }

  /** The two field names differ. */
  lemma FieldNamesDiffer()
    ensures CreatedAt != UpdatedAt
  {
    assert CreatedAt[0] != UpdatedAt[0];
  }

  /** Stamping keeps a supplied created_at, defaults it otherwise, and sets updated_at to now. */
  lemma StampedFields(values: Dict<string, Json>, now: nat)
    ensures Get(Stamp(values, now), CreatedAt) == if CreatedAt in Keys(values) then Get(values, CreatedAt) else Some(JNumber(now))
    ensures Get(Stamp(values, now), UpdatedAt) == Some(JNumber(now))
  {
    FieldNamesDiffer();
    var withCreated := if CreatedAt in Keys(values) then values else Insert(values, CreatedAt, JNumber(now));
    if CreatedAt !in Keys(values) {
      GetInsert(values, CreatedAt, JNumber(now), CreatedAt);
    }
    GetInsert(withCreated, UpdatedAt, JNumber(now), CreatedAt);
    GetInsert(withCreated, UpdatedAt, JNumber(now), UpdatedAt);
  }

  /** Stamping leaves every other key as it was. */
  lemma StampedOthers(values: Dict<string, Json>, now: nat, k: string)
    requires k != CreatedAt && k != UpdatedAt
    ensures Get(Stamp(values, now), k) == Get(values, k)
  {
    var withCreated := if CreatedAt in Keys(values) then values else Insert(values, CreatedAt, JNumber(now));
    if CreatedAt !in Keys(values) {
      GetInsert(values, CreatedAt, JNumber(now), k);
    }
    GetInsert(withCreated, UpdatedAt, JNumber(now), k);
  }

  /** A Python dict object passed to the validator. */
  class ValuesDict {
    var entries: Dict<string, Json>

    constructor (entries: Dict<string, Json>)
      ensures this.entries == entries
    {
      this.entries := entries;
    }
  }

  /** The pydantic_storage validator: it stamps the caller's dict in place and returns that same dict. */
  method StampInPlace(values: ValuesDict, now: nat) returns (r: ValuesDict)
    modifies values
    ensures r == values && values.entries == Stamp(old(values.entries), now)
  {
    if CreatedAt !in Keys(values.entries) {
      values.entries := Insert(values.entries, CreatedAt, JNumber(now));
    }
    values.entries := Insert(values.entries, UpdatedAt, JNumber(now));
    r := values;
  }

  /**
   * The json_file_storage validator: it stamps a copy of the caller's dict
   * (no dict counts as an empty one), so the caller's dict is left as it was.
   */
  method StampCopy(values: ValuesDict?, now: nat) returns (r: ValuesDict)
    ensures fresh(r) && r.entries == Stamp(if values == null then [] else values.entries, now)
  {
    r := new ValuesDict(if values == null then [] else values.entries);
    if CreatedAt !in Keys(r.entries) {
      r.entries := Insert(r.entries, CreatedAt, JNumber(now));
    }
    r.entries := Insert(r.entries, UpdatedAt, JNumber(now));
  }

  /** The two datetime fields checked after stamping; other keys are ignored. */
  function FromStamped(values: Dict<string, Json>, now: nat): Result<Timestamp, Error> {
    var stamped := Stamp(values, now);
    var created := AsInstant(Get(stamped, CreatedAt));
    var updated := AsInstant(Get(stamped, UpdatedAt));
    if created.None? || updated.None? then Failure(ValidationError)
    else Success(Timestamp(created.value, updated.value))
  }

  /** Validating a Timestamp in pydantic_storage: only a dict can be stamped. */
  function ValidateTimestamp(v: Json, now: nat): Result<Timestamp, Error> {
    if v.JObject? then FromStamped(v.fields, now) else Failure(TypeError)
  }

  /** Python truthiness of a JSON value. */
  predicate IsFalsy(v: Json) {
    v == JNull || v == JBool(false) || v == JNumber(0) || v == JString([]) || v == JArray([]) || v == JObject([])
  }

  /**
   * One element of `dict(items)`: it must be iterable (else TypeError), hold
   * exactly two items (else a ValueError, which pydantic reports as a
   * ValidationError), and its first item must be hashable (else TypeError).
   * A string iterates over its characters and an object over its keys.
   */
  function AsPair(e: Json): (r: Result<(Json, Json), Error>)
    ensures e.JNull? || e.JBool? || e.JNumber? ==> r == Failure(TypeError)
    ensures e.JArray? && |e.items| == 2 && !(e.items[0].JArray? || e.items[0].JObject?) ==> r == Success((e.items[0], e.items[1]))
  {
    match e
    case JNull => Failure(TypeError)
    case JBool(_) => Failure(TypeError)
    case JNumber(_) => Failure(TypeError)
    case JString(s) => if |s| == 2 then Success((JString([s[0]]), JString([s[1]]))) else Failure(ValidationError)
    case JArray(xs) =>
      if |xs| != 2 then Failure(ValidationError)
      else if xs[0].JArray? || xs[0].JObject? then Failure(TypeError)
      else Success((xs[0], xs[1]))
    case JObject(fs) => if |fs| == 2 then Success((JString(fs[0].0), JString(fs[1].0))) else Failure(ValidationError)
  }

  /**
   * Adding one pair as `d[k] = v` does.  A number, boolean or null key is
   * never a field name, so it cannot affect the Timestamp and is left out.
   */
  function AddPair(d: Dict<string, Json>, p: (Json, Json)): Dict<string, Json> {
    if p.0.JString? then Insert(d, p.0.s, p.1) else d
  }

  /** `dict(items)`, continuing from `acc`: the pairs in order, stopping at the first element that is not one. */
  function DictOfItems(items: seq<Json>, acc: Dict<string, Json>): Result<Dict<string, Json>, Error>
    decreases |items|
  {
    if items == [] then Success(acc)
    else
      var p := AsPair(items[0]);
      if p.Failure? then Failure(p.error) else DictOfItems(items[1..], AddPair(acc, p.value))
  }

  /** `list(d.items())` written as JSON: one `[key, value]` array per entry. */
  function ItemPairs(d: Dict<string, Json>): (r: seq<Json>)
    ensures |r| == |d|
  {
    if d == [] then [] else [JArray([JString(d[0].0), d[0].1])] + ItemPairs(d[1..])
  }

  /**
   * Validating a Timestamp in json_file_storage: a falsy input counts as an
   * empty dict; otherwise `dict(values)` is built first.  `dict()` of a
   * number or boolean raises TypeError, and of a non-empty string a
   * ValueError, since each character is one item long.
   */
  function ValidateCopiedTimestamp(v: Json, now: nat): Result<Timestamp, Error> {
    if IsFalsy(v) then FromStamped([], now)
    else if v.JObject? then FromStamped(v.fields, now)
    else if v.JArray? then
      var d := DictOfItems(v.items, []);
      if d.Failure? then Failure(d.error) else FromStamped(d.value, now)
    else if v.JNumber? || v.JBool? then Failure(TypeError)
    else Failure(ValidationError)
  }

  /** The JSON `model_dump` writes for a Timestamp. */
  function EncodeTimestamp(t: Timestamp): Json {
    var fields := [(CreatedAt, JNumber(t.createdAt)), (UpdatedAt, JNumber(t.updatedAt))];
    assert Keys(fields) == [CreatedAt, UpdatedAt];
    JObject(fields)
  }

  /** After stamping, created_at is the supplied one or now, and updated_at is now. */
  lemma FromStampedFields(values: Dict<string, Json>, now: nat)
    ensures FromStamped(values, now).Success? <==> CreatedAt !in Keys(values) || AsInstant(Get(values, CreatedAt)).Some?
    ensures FromStamped(values, now).Failure? ==> FromStamped(values, now).error == ValidationError
    ensures FromStamped(values, now).Success? ==>
      && FromStamped(values, now).value.createdAt == (if CreatedAt in Keys(values) then AsInstant(Get(values, CreatedAt)).value else now)
      && FromStamped(values, now).value.updatedAt == now
  {
    var stamped := Stamp(values, now);
    StampedFields(values, now);
    assert AsInstant(Get(stamped, UpdatedAt)) == Some(now);
    assert AsInstant(Get(stamped, CreatedAt)) ==
      if CreatedAt in Keys(values) then AsInstant(Get(values, CreatedAt)) else Some(now);
  }

  /** pydantic_storage: success, error kinds and the fields of the result. */
  lemma ValidateTimestampFields(v: Json, now: nat)
    ensures ValidateTimestamp(v, now).Success? <==>
      v.JObject? && (CreatedAt !in Keys(v.fields) || AsInstant(Get(v.fields, CreatedAt)).Some?)
    ensures !v.JObject? ==> ValidateTimestamp(v, now) == Failure(TypeError)
    ensures ValidateTimestamp(v, now).Success? ==>
      && ValidateTimestamp(v, now).value.createdAt == (if CreatedAt in Keys(v.fields) then AsInstant(Get(v.fields, CreatedAt)).value else now)
      && ValidateTimestamp(v, now).value.updatedAt == now
  {
    if v.JObject? {
      FromStampedFields(v.fields, now);
    }
  }

  /** json_file_storage: a falsy input gives fresh timestamps, a dict is read like pydantic_storage's. */
  lemma ValidateCopiedTimestampFields(v: Json, now: nat)
    ensures IsFalsy(v) ==> ValidateCopiedTimestamp(v, now) == Success(Timestamp(now, now))
    ensures !IsFalsy(v) && v.JObject? ==> ValidateCopiedTimestamp(v, now) == ValidateTimestamp(v, now)
    ensures !IsFalsy(v) && v.JArray? ==> (
      var d := DictOfItems(v.items, []);
      ValidateCopiedTimestamp(v, now) == if d.Failure? then Failure(d.error) else ValidateTimestamp(JObject(d.value), now))
    ensures !IsFalsy(v) && (v.JNumber? || v.JBool?) ==> ValidateCopiedTimestamp(v, now) == Failure(TypeError)
    ensures !IsFalsy(v) && (v.JNull? || v.JString?) ==> ValidateCopiedTimestamp(v, now) == Failure(ValidationError)
  {
    FromStampedFields([], now);
  }

  /** Rebuilding a dict from its items, onto `acc`, merges it into `acc`. */
  lemma {:induction false} DictOfItemPairs(d: Dict<string, Json>, acc: Dict<string, Json>)
    ensures DictOfItems(ItemPairs(d), acc) == Success(Merge(acc, d))
    decreases |d|
  {
    if d != [] {
      var items := ItemPairs(d);
      assert items[0] == JArray([JString(d[0].0), d[0].1]);
      assert items[1..] == ItemPairs(d[1..]);
      DictOfItemPairs(d[1..], Insert(acc, d[0].0, d[0].1));
    }
  }

  /** `dict(list(d.items()))` is `d`, so a Timestamp sent as a list of pairs reads as the dict itself. */
  lemma ItemPairsValidate(d: Dict<string, Json>, now: nat)
    requires d != []
    ensures ValidateCopiedTimestamp(JArray(ItemPairs(d)), now) == ValidateCopiedTimestamp(JObject(d), now)
  {
    DictOfItemPairs(d, []);
    MergeIntoEmpty(d);
  }

  /**
   * The element order decides the error: a number, boolean or null element
   * is a TypeError, a two-item element before it is read first, and an
   * element of the wrong length is a ValidationError.
   */
  lemma ItemElementErrors(now: nat)
    ensures ValidateCopiedTimestamp(JArray([JNumber(1)]), now) == Failure(TypeError)
    ensures ValidateCopiedTimestamp(JArray([JArray([JString("a"), JString("b")]), JNull]), now) == Failure(TypeError)
    ensures ValidateCopiedTimestamp(JArray([JArray([JNumber(1)])]), now) == Failure(ValidationError)
    ensures ValidateCopiedTimestamp(JArray([JArray([JString("a"), JString("b")]), JArray([])]), now) == Failure(ValidationError)
  {
    assert ([JArray([JString("a"), JString("b")]), JNull])[1..] == [JNull];
    assert ([JArray([JString("a"), JString("b")]), JArray([])])[1..] == [JArray([])];
  }

  /** Validating a dumped Timestamp keeps created_at and moves updated_at to now, in both variants. */
  lemma TimestampRoundTrip(t: Timestamp, now: nat)
    ensures ValidateTimestamp(EncodeTimestamp(t), now) == Success(Timestamp(t.createdAt, now))
    ensures ValidateCopiedTimestamp(EncodeTimestamp(t), now) == Success(Timestamp(t.createdAt, now))
  {
    var v := EncodeTimestamp(t);
    assert Keys(v.fields) == [CreatedAt, UpdatedAt];
    assert Get(v.fields, CreatedAt) == Some(JNumber(t.createdAt));
    ValidateTimestampFields(v, now);
  }

  /** `Timestamp()` with no arguments: both fields are now, so updated_at >= created_at. */
  lemma DefaultTimestamp(now: nat)
    ensures ValidateTimestamp(JObject([]), now) == Success(Timestamp(now, now))
    ensures ValidateCopiedTimestamp(JNull, now) == Success(Timestamp(now, now))
  {
    ValidateTimestampFields(JObject([]), now);
    ValidateCopiedTimestampFields(JNull, now);
  }

  /** A supplied created_at that is not in the future gives updated_at >= created_at. */
  lemma TimestampOrdered(v: Json, now: nat)
    requires ValidateTimestamp(v, now).Success?
    requires v.JObject? && CreatedAt in Keys(v.fields) ==> AsInstant(Get(v.fields, CreatedAt)).GetOr(0) <= now
    ensures ValidateTimestamp(v, now).value.createdAt <= ValidateTimestamp(v, now).value.updatedAt
  {
    ValidateTimestampFields(v, now);
  }
}
