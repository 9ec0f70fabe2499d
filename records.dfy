/**
 * The `records` field of the stored documents, as pydantic validates it
 * from JSON and `model_dump` writes it: `dict[int, T]` is a JSON object
 * whose keys are decimal integers, `list[T]` a JSON array.
 */
module RecordCodecs {
  import opened Wrappers
  import opened OrderedDicts
  import opened Json
  import opened Decimal

  /** `dict[int, T]`: each key parsed as an int and each value validated, assigned in document order. */
  function DecodeRecordMap<T>(fields: seq<(string, Json)>, model: RecordModel<T>): Option<Dict<int, T>>
    decreases |fields|
  {
    if fields == [] then Some([])
    else
      var init := DecodeRecordMap(fields[..|fields| - 1], model);
      var last := fields[|fields| - 1];
      var key := DecodeKey(last.0);
      var rec := model.validate(last.1);
      if init.None? || key.None? || rec.None? then None
      else Some(Insert(init.value, key.value, rec.value))
  }

  /** The JSON object `model_dump` writes for `dict[int, T]`. */
  function EncodeRecordMap<T>(records: Dict<int, T>, model: RecordModel<T>): (r: Dict<string, Json>)
    ensures |r| == |records|
    ensures forall i :: 0 <= i < |r| ==> r[i] == (EncodeKey(records[i].0), model.dump(records[i].1))
    decreases |records|
  {
    if records == [] then []
    else
      var init: Dict<int, T> := records[..|records| - 1];
      var front := EncodeRecordMap(init, model);
      var last := records[|records| - 1];
      var p := (EncodeKey(last.0), model.dump(last.1));
      assert p.0 !in Keys(front) by {
        forall i | 0 <= i < |front|
          ensures Keys(front)[i] != p.0
        {
          if front[i].0 == p.0 {
            EncodeKeyInjective(init[i].0, last.0);
          }
        }
      }
      SnocDistinct(front, p);
      front + [p]
  }

  /** Validating the dumped records map gives it back, entry for entry and in order. */
  lemma {:induction false} RecordMapRoundTrip<T(!new)>(records: Dict<int, T>, model: RecordModel<T>)
    requires RoundTrips(model)
    ensures DecodeRecordMap(EncodeRecordMap(records, model), model) == Some(records)
    decreases |records|
  {
    if records != [] {
      var init: Dict<int, T> := records[..|records| - 1];
      var e := EncodeRecordMap(records, model);
      var last := records[|records| - 1];
      assert e[..|e| - 1] == EncodeRecordMap(init, model);
      RecordMapRoundTrip(init, model);
      KeyRoundTrip(last.0);
      LastKeyNew(records);
      InsertNew(init, last.0, last.1);
      FrontLast(records);
    }
  }

  /** `list[T]`: every item validated, in order. */
  function DecodeRecordList<T>(items: seq<Json>, model: RecordModel<T>): Option<seq<T>>
    decreases |items|
  {
    if items == [] then Some([])
    else
      var init := DecodeRecordList(items[..|items| - 1], model);
      var rec := model.validate(items[|items| - 1]);
      if init.None? || rec.None? then None else Some(init.value + [rec.value])
  }

  /** The JSON array `model_dump` writes for `list[T]`. */
  function EncodeRecordList<T>(records: seq<T>, model: RecordModel<T>): (r: seq<Json>)
    ensures |r| == |records|
    ensures forall i :: 0 <= i < |r| ==> r[i] == model.dump(records[i])
  {
    seq(|records|, i requires 0 <= i < |records| => model.dump(records[i]))
  }

  /** Validating the dumped list gives it back, item for item and in order. */
  lemma {:induction false} RecordListRoundTrip<T(!new)>(records: seq<T>, model: RecordModel<T>)
    requires RoundTrips(model)
    ensures DecodeRecordList(EncodeRecordList(records, model), model) == Some(records)
    decreases |records|
  {
    if records != [] {
      var init := records[..|records| - 1];
      var e := EncodeRecordList(records, model);
      assert e[..|e| - 1] == EncodeRecordList(init, model);
      RecordListRoundTrip(init, model);
      FrontLast(records);
    }
  }
}
