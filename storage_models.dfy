/**
 * The pydantic models of the pydantic_storage variant: MetaData (version
 * with a default and a pattern, title, description, a three-field Storage
 * and optional Timestamps), FileData with an int-keyed records map, and
 * Data, the document FileManager stores, with a records list.  Both
 * documents forbid any top-level key but `metadata` and `records`.
 */
module StorageModels {
  import opened Wrappers
  import opened OrderedDicts
  import opened Json
  import opened Errors
  import opened Timestamps
  import opened Version
  import opened RecordCodecs

  datatype Storage = Storage(storageType: string, format: string, encryption: string)

  datatype MetaData = MetaData(
    version: string, title: string, description: string, storage: Storage, timestamps: Option<Timestamp>)

  /** `FileData[T]`: the records keyed by id. */
  datatype FileData<T> = FileData(metadata: MetaData, records: Dict<int, T>)

  /** `Data[T]`: the records as a list. */
  datatype Data<T> = Data(metadata: MetaData, records: seq<T>)

  /** The one constraint on MetaData beyond field types: the version matches the pattern. */
  predicate ValidMetaData(m: MetaData) {
    IsVersion(m.version)
  }

  function Required(fields: Dict<string, Json>, key: string): Result<Json, Error> {
    var v := Get(fields, key);
    if v.Some? then Success(v.value) else Failure(ValidationError)
  }

  function RequiredString(fields: Dict<string, Json>, key: string): Result<string, Error> {
    var v := GetString(fields, key);
    if v.Some? then Success(v.value) else Failure(ValidationError)
  }

  /** `Storage`: `type`, `format` and `encryption` are all required strings; other keys are ignored. */
  function ValidateStorage(v: Json): Result<Storage, Error> {
    if !v.JObject? then Failure(ValidationError)
    else
      var storageType := RequiredString(v.fields, "type");
      var format := RequiredString(v.fields, "format");
      var encryption := RequiredString(v.fields, "encryption");
      if storageType.Failure? || format.Failure? || encryption.Failure? then Failure(ValidationError)
      else Success(Storage(storageType.value, format.value, encryption.value))
  }

  /** `version`: "1.0.0" when absent, otherwise a string matching the pattern. */
  function VersionField(f: Dict<string, Json>): Result<string, Error> {
    var v := Get(f, "version");
    if v.None? then Success(DefaultVersion)
    else if v.value.JString? && IsVersion(v.value.s) then Success(v.value.s)
    else Failure(ValidationError)
  }

  function StorageField(f: Dict<string, Json>): Result<Storage, Error> {
    var st := Required(f, "storage");
    if st.Failure? then Failure(ValidationError) else ValidateStorage(st.value)
  }

  /** `timestamps`: none when absent or null, otherwise run through the in-place Timestamp validator. */
  function TimestampsField(f: Dict<string, Json>, now: nat): Result<Option<Timestamp>, Error> {
    var ts := Get(f, "timestamps");
    if ts.None? || ts.value == JNull then Success(None)
    else
      var t := ValidateTimestamp(ts.value, now);
      if t.Failure? then Failure(t.error) else Success(Some(t.value))
  }

  function AssembleMetaData(
    version: Result<string, Error>, title: Result<string, Error>, description: Result<string, Error>,
    storage: Result<Storage, Error>, timestamps: Result<Option<Timestamp>, Error>): Result<MetaData, Error>
  {
    if version.Failure? || title.Failure? || description.Failure? || storage.Failure? || timestamps.Failure? then
      Failure(ValidationError)
    else
      Success(MetaData(version.value, title.value, description.value, storage.value, timestamps.value))
  }

  /**
   * `MetaData`: a TypeError from the Timestamp validator escapes validation;
   * every other problem is a ValidationError.  Other keys are ignored.
   */
  function ValidateMetaData(v: Json, now: nat): Result<MetaData, Error> {
    if !v.JObject? then Failure(ValidationError)
    else
      var f := v.fields;
      var timestamps := TimestampsField(f, now);
      if timestamps == Failure(TypeError) then Failure(TypeError)
      else
        AssembleMetaData(
          VersionField(f), RequiredString(f, "title"), RequiredString(f, "description"),
          StorageField(f), timestamps)
  }

  const DocumentKeys: seq<string> := ["metadata", "records"]

  function MetaDataField(f: Dict<string, Json>, now: nat): Result<MetaData, Error> {
    var m := Required(f, "metadata");
    if m.Failure? then Failure(ValidationError) else ValidateMetaData(m.value, now)
  }

  /** `records` of FileData: an empty map when absent, otherwise an object of int-keyed records. */
  function RecordMapField<T>(f: Dict<string, Json>, model: RecordModel<T>): Result<Dict<int, T>, Error> {
    var v := Get(f, "records");
    if v.None? then Success([])
    else if !v.value.JObject? then Failure(ValidationError)
    else
      var r := DecodeRecordMap(v.value.fields, model);
      if r.None? then Failure(ValidationError) else Success(r.value)
  }

  /** `records` of Data: an empty list when absent, otherwise an array of records. */
  function RecordListField<T>(f: Dict<string, Json>, model: RecordModel<T>): Result<seq<T>, Error> {
    var v := Get(f, "records");
    if v.None? then Success([])
    else if !v.value.JArray? then Failure(ValidationError)
    else
      var r := DecodeRecordList(v.value.items, model);
      if r.None? then Failure(ValidationError) else Success(r.value)
  }

  function ValidateFileData<T>(v: Json, model: RecordModel<T>, now: nat): Result<FileData<T>, Error> {
    if !v.JObject? then Failure(ValidationError)
    else
      var metadata := MetaDataField(v.fields, now);
      if metadata == Failure(TypeError) then Failure(TypeError)
      else
        var records := RecordMapField(v.fields, model);
        if metadata.Failure? || records.Failure? || !OnlyKeys(v.fields, DocumentKeys) then Failure(ValidationError)
        else Success(FileData(metadata.value, records.value))
  }

  function ValidateData<T>(v: Json, model: RecordModel<T>, now: nat): Result<Data<T>, Error> {
    if !v.JObject? then Failure(ValidationError)
    else
      var metadata := MetaDataField(v.fields, now);
      if metadata == Failure(TypeError) then Failure(TypeError)
      else
        var records := RecordListField(v.fields, model);
        if metadata.Failure? || records.Failure? || !OnlyKeys(v.fields, DocumentKeys) then Failure(ValidationError)
        else Success(Data(metadata.value, records.value))
  }

  function EncodeStorage(s: Storage): Json {
    JObject([("type", JString(s.storageType)), ("format", JString(s.format)), ("encryption", JString(s.encryption))])
  }

  function EncodeTimestamps(t: Option<Timestamp>): Json {
    if t.None? then JNull else EncodeTimestamp(t.value)
  }

  /** The dict `model_dump` gives for MetaData, fields in declaration order. */
  function DumpMetaData(m: MetaData): Dict<string, Json> {
    [("version", JString(m.version)), ("title", JString(m.title)), ("description", JString(m.description)),
     ("storage", EncodeStorage(m.storage)), ("timestamps", EncodeTimestamps(m.timestamps))]
  }

  function EncodeData<T>(d: Data<T>, model: RecordModel<T>): Json {
    JObject([("metadata", JObject(DumpMetaData(d.metadata))), ("records", JArray(EncodeRecordList(d.records, model)))])
  }

  function EncodeFileData<T>(d: FileData<T>, model: RecordModel<T>): Json {
    JObject([("metadata", JObject(DumpMetaData(d.metadata))), ("records", JObject(EncodeRecordMap(d.records, model)))])
  }

  /** The metadata as the Timestamp validator leaves it when it is validated again at `now`. */
  function Refreshed(m: MetaData, now: nat): (r: MetaData)
    ensures r.(timestamps := m.timestamps) == m
    ensures r.timestamps.Some? <==> m.timestamps.Some?
    ensures r.timestamps.Some? ==> r.timestamps.value == Timestamp(m.timestamps.value.createdAt, now)
  {
    if m.timestamps.None? then m else m.(timestamps := Some(Timestamp(m.timestamps.value.createdAt, now)))
  }

  /** Storage requires all three fields: validating its dump gives it back. */
  lemma StorageRoundTrip(s: Storage)
    ensures ValidateStorage(EncodeStorage(s)) == Success(s)
  {
    var f := EncodeStorage(s).fields;
    GetAt(f, 0);
    GetAt(f, 1);
    GetAt(f, 2);
  }

  /** A storage object missing `type`, `format` or `encryption` is rejected. */
  lemma StorageRequiresAll(v: Json)
    requires v.JObject?
    requires GetString(v.fields, "type").None? || GetString(v.fields, "format").None? || GetString(v.fields, "encryption").None?
    ensures ValidateStorage(v) == Failure(ValidationError)
  {
  }

  /** Each field of dumped metadata is found under its name. */
  lemma DumpLookups(m: MetaData)
    ensures var f := DumpMetaData(m);
      && Get(f, "version") == Some(JString(m.version))
      && Get(f, "title") == Some(JString(m.title))
      && Get(f, "description") == Some(JString(m.description))
      && Get(f, "storage") == Some(EncodeStorage(m.storage))
      && Get(f, "timestamps") == Some(EncodeTimestamps(m.timestamps))
  {
    var f := DumpMetaData(m);
    GetAt(f, 0);
    GetAt(f, 1);
    GetAt(f, 2);
    GetAt(f, 3);
    GetAt(f, 4);
  }

  /** Each field of dumped metadata validates to the value it came from. */
  lemma DumpedMetaDataFields(m: MetaData, now: nat)
    requires ValidMetaData(m)
    ensures var f := DumpMetaData(m);
      && VersionField(f) == Success(m.version)
      && RequiredString(f, "title") == Success(m.title)
      && RequiredString(f, "description") == Success(m.description)
      && StorageField(f) == Success(m.storage)
      && TimestampsField(f, now) == Success(Refreshed(m, now).timestamps)
  {
    DumpLookups(m);
    FieldsFromLookups(DumpMetaData(m), m, now);
  }

  /** Any dict holding the dumped fields of `m` under their names validates field by field to `m`. */
  lemma FieldsFromLookups(f: Dict<string, Json>, m: MetaData, now: nat)
    requires ValidMetaData(m)
    requires Get(f, "version") == Some(JString(m.version))
    requires Get(f, "title") == Some(JString(m.title))
    requires Get(f, "description") == Some(JString(m.description))
    requires Get(f, "storage") == Some(EncodeStorage(m.storage))
    requires Get(f, "timestamps") == Some(EncodeTimestamps(m.timestamps))
    ensures VersionField(f) == Success(m.version)
    ensures RequiredString(f, "title") == Success(m.title)
    ensures RequiredString(f, "description") == Success(m.description)
    ensures StorageField(f) == Success(m.storage)
    ensures TimestampsField(f, now) == Success(Refreshed(m, now).timestamps)
  {
    StorageRoundTrip(m.storage);
    TimestampsFromLookup(f, m, now);
  }

  /** The timestamps part of FieldsFromLookups. */
  lemma TimestampsFromLookup(f: Dict<string, Json>, m: MetaData, now: nat)
    requires Get(f, "timestamps") == Some(EncodeTimestamps(m.timestamps))
    ensures TimestampsField(f, now) == Success(Refreshed(m, now).timestamps)
  {
    if m.timestamps.Some? {
      TimestampRoundTrip(m.timestamps.value, now);
    }
  }

  lemma DumpedMetaDataValidates(m: MetaData, now: nat)
    requires ValidMetaData(m)
    ensures ValidateMetaData(JObject(DumpMetaData(m)), now) == AssembleMetaData(
      Success(m.version), Success(m.title), Success(m.description), Success(m.storage),
      Success(Refreshed(m, now).timestamps))
  {
    DumpedMetaDataFields(m, now);
  }

  /** Validating dumped metadata gives it back, except that updated_at is now. */
  lemma MetaDataRoundTrip(m: MetaData, now: nat)
    requires ValidMetaData(m)
    ensures ValidateMetaData(JObject(DumpMetaData(m)), now) == Success(Refreshed(m, now))
  {
    DumpedMetaDataValidates(m, now);
  }

  /** Whatever validates has a version that matches the pattern. */
  lemma ValidatedMetaDataValid(v: Json, now: nat)
    requires ValidateMetaData(v, now).Success?
    ensures ValidMetaData(ValidateMetaData(v, now).value)
  {
    DefaultVersionValid();
  }

  /** A validated Data document carries valid metadata. */
  lemma ValidatedDataValid<T>(v: Json, model: RecordModel<T>, now: nat)
    requires ValidateData(v, model, now).Success?
    ensures ValidMetaData(ValidateData(v, model, now).value.metadata)
  {
    ValidatedMetaDataValid(Get(v.fields, "metadata").value, now);
  }

  /** The default version matches the pattern. */
  lemma DefaultVersionValid()
    ensures IsVersion(DefaultVersion)
  {
    AcceptedExamples();
    IsVersionCorrect(DefaultVersion);
  }

  /** Without `version` the version is "1.0.0"; a version string outside the pattern is rejected. */
  lemma VersionDefaultAndPattern(v: Json, now: nat)
    requires v.JObject?
    ensures "version" !in Keys(v.fields) && ValidateMetaData(v, now).Success? ==>
      ValidateMetaData(v, now).value.version == DefaultVersion
    ensures ((forall s :: Get(v.fields, "version") == Some(JString(s)) ==> !MatchesPattern(s)) &&
      "version" in Keys(v.fields)) ==> ValidateMetaData(v, now).Failure?
  {
    var ver := Get(v.fields, "version");
    if ver.Some? && ver.value.JString? {
      IsVersionCorrect(ver.value.s);
    }
  }

  /** `storage` is required; `timestamps` is optional, none when absent or null. */
  lemma MetaDataFieldRules(v: Json, now: nat)
    requires v.JObject?
    ensures "storage" !in Keys(v.fields) ==> ValidateMetaData(v, now).Failure?
    ensures ((Get(v.fields, "timestamps").None? || Get(v.fields, "timestamps") == Some(JNull)) &&
      ValidateMetaData(v, now).Success?) ==> ValidateMetaData(v, now).value.timestamps == None
  {
  }

  /** The merge `{**stored, **in_memory}` of two dumped MetaData is the in-memory dump: nothing stored survives. */
  lemma MergeKeepsInMemory(stored: MetaData, inMemory: MetaData)
    ensures Merge(DumpMetaData(stored), DumpMetaData(inMemory)) == DumpMetaData(inMemory)
  {
    assert Keys(DumpMetaData(stored)) == Keys(DumpMetaData(inMemory));
    MergeSameKeys(DumpMetaData(stored), DumpMetaData(inMemory));
  }

  /** The two fields of a dumped document are found under their names, and there is no other. */
  lemma DocumentLookups(metadata: Json, records: Json)
    ensures var f: Dict<string, Json> := [("metadata", metadata), ("records", records)];
      && Get(f, "metadata") == Some(metadata) && Get(f, "records") == Some(records) && OnlyKeys(f, DocumentKeys)
  {
    var f: Dict<string, Json> := [("metadata", metadata), ("records", records)];
    GetAt(f, 0);
    GetAt(f, 1);
  }

  lemma DumpedDataFields<T(!new)>(d: Data<T>, model: RecordModel<T>, now: nat)
    requires RoundTrips(model) && ValidMetaData(d.metadata)
    ensures var f := EncodeData(d, model).fields;
      && MetaDataField(f, now) == Success(Refreshed(d.metadata, now))
      && RecordListField(f, model) == Success(d.records)
      && OnlyKeys(f, DocumentKeys)
  {
    DocumentLookups(JObject(DumpMetaData(d.metadata)), JArray(EncodeRecordList(d.records, model)));
    MetaDataRoundTrip(d.metadata, now);
    RecordListRoundTrip(d.records, model);
  }

  /** Validating a dumped Data document gives it back, except that updated_at is now. */
  lemma DataRoundTrip<T(!new)>(d: Data<T>, model: RecordModel<T>, now: nat)
    requires RoundTrips(model) && ValidMetaData(d.metadata)
    ensures ValidateData(EncodeData(d, model), model, now) == Success(Data(Refreshed(d.metadata, now), d.records))
  {
    DumpedDataFields(d, model, now);
  }

  lemma DumpedFileDataFields<T(!new)>(d: FileData<T>, model: RecordModel<T>, now: nat)
    requires RoundTrips(model) && ValidMetaData(d.metadata)
    ensures var f := EncodeFileData(d, model).fields;
      && MetaDataField(f, now) == Success(Refreshed(d.metadata, now))
      && RecordMapField(f, model) == Success(d.records)
      && OnlyKeys(f, DocumentKeys)
  {
    DocumentLookups(JObject(DumpMetaData(d.metadata)), JObject(EncodeRecordMap(d.records, model)));
    MetaDataRoundTrip(d.metadata, now);
    RecordMapRoundTrip(d.records, model);
  }

  /** Validating a dumped FileData document gives it back, except that updated_at is now. */
  lemma FileDataRoundTrip<T(!new)>(d: FileData<T>, model: RecordModel<T>, now: nat)
    requires RoundTrips(model) && ValidMetaData(d.metadata)
    ensures ValidateFileData(EncodeFileData(d, model), model, now) == Success(FileData(Refreshed(d.metadata, now), d.records))
  {
    DumpedFileDataFields(d, model, now);
  }

  /** Both documents reject a top-level key other than `metadata` and `records`. */
  lemma ExtraKeysRejected<T>(v: Json, model: RecordModel<T>, now: nat)
    requires v.JObject? && !OnlyKeys(v.fields, DocumentKeys)
    ensures ValidateFileData(v, model, now).Failure?
    ensures ValidateData(v, model, now).Failure?
  {
  }

  /** Without `records` a valid document has no records. */
  lemma RecordsDefaultEmpty<T>(v: Json, model: RecordModel<T>, now: nat)
    requires v.JObject? && "records" !in Keys(v.fields)
    ensures ValidateFileData(v, model, now).Success? ==> ValidateFileData(v, model, now).value.records == []
    ensures ValidateData(v, model, now).Success? ==> ValidateData(v, model, now).value.records == []
  {
  }
}
