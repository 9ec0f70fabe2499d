/**
 * The pydantic models of the json_file_storage variant: a FileData document
 * holds FileMetaData (version, title, description, a two-field Storage and
 * required Timestamps) and an int-keyed records map, and forbids any other
 * top-level key.  Validation reads a parsed JSON value; `now` is the instant
 * the Timestamp validator stamps.
 */
module JsonModels {
  import opened Wrappers
  import opened OrderedDicts
  import opened Json
  import opened Errors
  import opened Timestamps
  import opened RecordCodecs

  datatype Storage = Storage(storageType: string, encryption: string)

  /** The metadata a manager is configured with. */
  datatype BaseMetaData = BaseMetaData(version: string, title: string, description: string)

  datatype FileMetaData = FileMetaData(
    version: string, title: string, description: string, storage: Storage, timestamps: Timestamp)

  datatype FileData<T> = FileData(metadata: FileMetaData, records: Dict<int, T>)

  /** A required field: absent is an error. */
  function Required(fields: Dict<string, Json>, key: string): Result<Json, Error> {
    var v := Get(fields, key);
    if v.Some? then Success(v.value) else Failure(ValidationError)
  }

  /** A required `str` field. */
  function RequiredString(fields: Dict<string, Json>, key: string): Result<string, Error> {
    var v := GetString(fields, key);
    if v.Some? then Success(v.value) else Failure(ValidationError)
  }

  /** `Storage`: both `type` and `encryption` are required strings; other keys are ignored. */
  function ValidateStorage(v: Json): Result<Storage, Error> {
    if !v.JObject? then Failure(ValidationError)
    else
      var storageType := RequiredString(v.fields, "type");
      var encryption := RequiredString(v.fields, "encryption");
      if storageType.Failure? || encryption.Failure? then Failure(ValidationError)
      else Success(Storage(storageType.value, encryption.value))
  }

  /** The required `storage` field. */
  function StorageField(f: Dict<string, Json>): Result<Storage, Error> {
    var st := Required(f, "storage");
    if st.Failure? then Failure(ValidationError) else ValidateStorage(st.value)
  }

  /** The required `timestamps` field, run through the copying Timestamp validator. */
  function TimestampsField(f: Dict<string, Json>, now: nat): Result<Timestamp, Error> {
    var ts := Required(f, "timestamps");
    if ts.Failure? then Failure(ValidationError) else ValidateCopiedTimestamp(ts.value, now)
  }

  /** The field results combined: any failed field makes the metadata invalid. */
  function AssembleMetaData(
    version: Result<string, Error>, title: Result<string, Error>, description: Result<string, Error>,
    storage: Result<Storage, Error>, timestamps: Result<Timestamp, Error>): Result<FileMetaData, Error>
  {
    if version.Failure? || title.Failure? || description.Failure? || storage.Failure? || timestamps.Failure? then
      Failure(ValidationError)
    else
      Success(FileMetaData(version.value, title.value, description.value, storage.value, timestamps.value))
  }

  /**
   * `FileMetaData`: three required strings (the version is not checked
   * further), a required Storage and required Timestamps.  A TypeError from
   * the Timestamp validator escapes validation; every other problem is a
   * ValidationError.  Other keys are ignored.
   */
  function ValidateMetaData(v: Json, now: nat): Result<FileMetaData, Error> {
    if !v.JObject? then Failure(ValidationError)
    else
      var f := v.fields;
      var timestamps := TimestampsField(f, now);
      if timestamps == Failure(TypeError) then Failure(TypeError)
      else
        AssembleMetaData(
          RequiredString(f, "version"), RequiredString(f, "title"), RequiredString(f, "description"),
          StorageField(f), timestamps)
  }

  /** The only top-level keys a FileData document may have. */
  const FileDataKeys: seq<string> := ["metadata", "records"]

  /** `records`: defaults to an empty map; otherwise a JSON object of int-keyed records. */
  function ValidateRecords<T>(v: Option<Json>, model: RecordModel<T>): Result<Dict<int, T>, Error> {
    if v.None? then Success([])
    else if !v.value.JObject? then Failure(ValidationError)
    else
      var r := DecodeRecordMap(v.value.fields, model);
      if r.None? then Failure(ValidationError) else Success(r.value)
  }

  /** The required `metadata` field. */
  function MetaDataField(f: Dict<string, Json>, now: nat): Result<FileMetaData, Error> {
    var m := Required(f, "metadata");
    if m.Failure? then Failure(ValidationError) else ValidateMetaData(m.value, now)
  }

  /** The field results combined with the check for extra keys. */
  function AssembleFileData<T>(
    metadata: Result<FileMetaData, Error>, records: Result<Dict<int, T>, Error>, onlyKnownKeys: bool): Result<FileData<T>, Error>
  {
    if metadata.Failure? || records.Failure? || !onlyKnownKeys then Failure(ValidationError)
    else Success(FileData(metadata.value, records.value))
  }

  /** `FileData[T]`: required metadata, optional records, and no other key. */
  function ValidateFileData<T>(v: Json, model: RecordModel<T>, now: nat): Result<FileData<T>, Error> {
    if !v.JObject? then Failure(ValidationError)
    else
      var metadata := MetaDataField(v.fields, now);
      if metadata == Failure(TypeError) then Failure(TypeError)
      else AssembleFileData(metadata, ValidateRecords(Get(v.fields, "records"), model), OnlyKeys(v.fields, FileDataKeys))
  }

  /** Every document that validates is stamped updated at the validation instant. */
  lemma ValidatedAtNow<T>(v: Json, model: RecordModel<T>, now: nat)
    requires ValidateFileData(v, model, now).Success?
    ensures ValidateFileData(v, model, now).value.metadata.timestamps.updatedAt == now
  {
    var m := Required(v.fields, "metadata").value;
    var ts := Required(m.fields, "timestamps").value;
    if IsFalsy(ts) {
      FromStampedFields([], now);
    } else if ts.JObject? {
      FromStampedFields(ts.fields, now);
    } else if ts.JArray? {
      FromStampedFields(DictOfItems(ts.items, []).value, now);
    }
  }

  function EncodeStorage(s: Storage): Json {
    JObject([("type", JString(s.storageType)), ("encryption", JString(s.encryption))])
  }

  function EncodeMetaData(m: FileMetaData): Json {
    JObject([
      ("version", JString(m.version)), ("title", JString(m.title)), ("description", JString(m.description)),
      ("storage", EncodeStorage(m.storage)), ("timestamps", EncodeTimestamp(m.timestamps))])
  }

  /** The document `model_dump_json` writes, with the fields in declaration order. */
  function EncodeFileData<T>(d: FileData<T>, model: RecordModel<T>): Json {
    JObject([("metadata", EncodeMetaData(d.metadata)), ("records", JObject(EncodeRecordMap(d.records, model)))])
  }

  /** The document as the Timestamp validator leaves it when it is read at `now`. */
  function ReadAt<T>(d: FileData<T>, now: nat): (r: FileData<T>)
    ensures r.records == d.records
    ensures r.metadata.timestamps == Timestamp(d.metadata.timestamps.createdAt, now)
    ensures r.metadata.(timestamps := d.metadata.timestamps) == d.metadata
  {
    d.(metadata := d.metadata.(timestamps := Timestamp(d.metadata.timestamps.createdAt, now)))
  }

  /** Storage has exactly the fields `type` and `encryption`: validating its dump gives it back. */
  lemma StorageRoundTrip(s: Storage)
    ensures ValidateStorage(EncodeStorage(s)) == Success(s)
  {
    var f := EncodeStorage(s).fields;
    GetAt(f, 0);
    GetAt(f, 1);
  }

  /** Each field of dumped metadata is found under its name. */
  lemma DumpedMetaDataFields(m: FileMetaData, now: nat)
    ensures var f := EncodeMetaData(m).fields;
      && RequiredString(f, "version") == Success(m.version)
      && RequiredString(f, "title") == Success(m.title)
      && RequiredString(f, "description") == Success(m.description)
      && StorageField(f) == Success(m.storage)
      && TimestampsField(f, now) == Success(Timestamp(m.timestamps.createdAt, now))
  {
    var f := EncodeMetaData(m).fields;
    GetAt(f, 0);
    GetAt(f, 1);
    GetAt(f, 2);
    GetAt(f, 3);
    GetAt(f, 4);
    TimestampRoundTrip(m.timestamps, now);
    StorageRoundTrip(m.storage);
  }

  /** Dumped metadata validates field by field. */
  lemma DumpedMetaDataValidates(m: FileMetaData, now: nat)
    ensures ValidateMetaData(EncodeMetaData(m), now) == AssembleMetaData(
      Success(m.version), Success(m.title), Success(m.description), Success(m.storage),
      Success(Timestamp(m.timestamps.createdAt, now)))
  {
    DumpedMetaDataFields(m, now);
  }

  /** Validating dumped metadata gives it back, with any version string, and updated_at moved to now. */
  lemma MetaDataRoundTrip(m: FileMetaData, now: nat)
    ensures ValidateMetaData(EncodeMetaData(m), now) == Success(m.(timestamps := Timestamp(m.timestamps.createdAt, now)))
  {
    DumpedMetaDataValidates(m, now);
  }

  /** Each field of a dumped document is found under its name, and there is no other. */
  lemma DumpedFileDataFields<T(!new)>(d: FileData<T>, model: RecordModel<T>, now: nat)
    requires d.records == [] || RoundTrips(model)
    ensures var f := EncodeFileData(d, model).fields;
      && MetaDataField(f, now) == Success(ReadAt(d, now).metadata)
      && ValidateRecords(Get(f, "records"), model) == Success(d.records)
      && OnlyKeys(f, FileDataKeys)
  {
    var f := EncodeFileData(d, model).fields;
    GetAt(f, 0);
    GetAt(f, 1);
    MetaDataRoundTrip(d.metadata, now);
    if d.records != [] {
      RecordMapRoundTrip(d.records, model);
    }
  }

  /** Validating a dumped document gives it back, except that updated_at is now; no record needs to round-trip when there are none. */
  lemma FileDataRoundTrip<T(!new)>(d: FileData<T>, model: RecordModel<T>, now: nat)
    requires d.records == [] || RoundTrips(model)
    ensures ValidateFileData(EncodeFileData(d, model), model, now) == Success(ReadAt(d, now))
  {
    DumpedFileDataFields(d, model, now);
  }

  /** A top-level key other than `metadata` and `records` makes the document invalid. */
  lemma ExtraKeysRejected<T>(v: Json, model: RecordModel<T>, now: nat)
    requires v.JObject? && !OnlyKeys(v.fields, FileDataKeys)
    ensures ValidateFileData(v, model, now).Failure?
  {
  }

  /** Without `records` a valid document has no records. */
  lemma RecordsDefaultEmpty<T>(v: Json, model: RecordModel<T>, now: nat)
    requires v.JObject? && "records" !in Keys(v.fields)
    requires ValidateFileData(v, model, now).Success?
    ensures ValidateFileData(v, model, now).value.records == []
  {
  }

  /** Timestamps must be present; a null one is stamped fresh at now. */
  lemma TimestampsRequired(v: Json, now: nat)
    requires v.JObject?
    ensures "timestamps" !in Keys(v.fields) ==> ValidateMetaData(v, now) == Failure(ValidationError)
    ensures Get(v.fields, "timestamps") == Some(JNull) && ValidateMetaData(v, now).Success? ==>
      ValidateMetaData(v, now).value.timestamps == Timestamp(now, now)
  {
    if Get(v.fields, "timestamps") == Some(JNull) {
      ValidateCopiedTimestampFields(JNull, now);
    }
  }
}
