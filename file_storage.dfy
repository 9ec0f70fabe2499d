/**
 * FileStorage: a record store over one FileManager, configured with the
 * base metadata (version, title, description) and a list of unique fields.
 */
module FileStorages {
  import opened Wrappers
  import opened OrderedDicts
  import opened Json
  import opened Errors
  import opened StorageModels
  import opened Files
  import opened FileManagers

  /** The `BaseMetaDataDict` a storage is configured with. */
  datatype BaseMetaData = BaseMetaData(version: string, title: string, description: string)

  function AsDict(m: BaseMetaData): Dict<string, Json> {
    [("version", JString(m.version)), ("title", JString(m.title)), ("description", JString(m.description))]
  }

  /** `unique_fields or []`. */
  function UniqueFieldsOrEmpty(uniqueFields: Option<seq<string>>): (r: seq<string>)
    ensures uniqueFields.None? ==> r == []
    ensures uniqueFields.Some? ==> r == uniqueFields.value
  {
    if uniqueFields.None? then [] else uniqueFields.value
  }

  /** `all`: the records of a stored document, one per id, in id insertion order. */
  function All<T>(stored: FileData<T>): (r: seq<T>)
    ensures |r| == |stored.records| == |ToMap(stored.records)|
    ensures forall i :: 0 <= i < |r| ==> Get(stored.records, Keys(stored.records)[i]) == Some(r[i])
  {
    SizeIsKeyCount(stored.records);
    forall i | 0 <= i < |stored.records|
      ensures Get(stored.records, Keys(stored.records)[i]) == Some(Values(stored.records)[i])
    {
      GetAt(stored.records, i);
    }
    Values(stored.records)
  }

  /** Every record of the document is among the ones `all` returns, and an empty document gives none. */
  lemma AllCovers<T>(stored: FileData<T>, k: int)
    ensures Get(stored.records, k).Some? ==> Get(stored.records, k).value in All(stored)
    ensures stored.records == [] ==> All(stored) == []
  {
  }

  /** The base metadata has no storage block, so the manager rejects it whatever is on disk. */
  lemma BaseMetaDataRejected(m: BaseMetaData, now: nat)
    ensures ValidateMetaData(JObject(AsDict(m)), now) == Failure(ValidationError)
  {
  }

  class FileStorage<T(!new)> {
    const filePath: Path
    const modelClass: RecordModel<T>
    const metadata: BaseMetaData
    const uniqueFields: seq<string>
    const manager: FileManager<T>

    constructor (filePath: string, modelClass: RecordModel<T>, metadata: BaseMetaData, uniqueFields: Option<seq<string>>, manager: FileManager<T>)
      ensures this.filePath == Path(filePath) && this.modelClass == modelClass && this.metadata == metadata
      ensures this.uniqueFields == UniqueFieldsOrEmpty(uniqueFields) && this.manager == manager
    {
      this.filePath := Path(filePath);
      this.modelClass := modelClass;
      this.metadata := metadata;
      this.uniqueFields := UniqueFieldsOrEmpty(uniqueFields);
      this.manager := manager;
    }

    /** `FileStorage(file_path, model_class, metadata, unique_fields)`: the manager is built from the same path, model and metadata. */
    static method Open(filePath: string, modelClass: RecordModel<T>, metadata: BaseMetaData, uniqueFields: Option<seq<string>>,
                       disk: Disk, now: nat)
      returns (r: Result<FileStorage<T>, Error>)
      modifies disk
      ensures var m := ValidateMetaData(JObject(AsDict(metadata)), now);
        m.Failure? ==> r == Failure(m.error) && disk.node == old(disk.node)
      ensures r.Success? ==> (
        && fresh(r.value) && r.value.filePath == Path(filePath) && r.value.modelClass == modelClass
        && r.value.metadata == metadata && r.value.uniqueFields == UniqueFieldsOrEmpty(uniqueFields)
        && r.value.manager.file == Path(filePath) && r.value.manager.modelClass == modelClass
        && r.value.manager.disk == disk)
    {
      var fm := FileManager.Open(UriText(filePath), modelClass, AsDict(metadata), disk, now);
      if fm.Failure? {
        return Failure(fm.error);
      }
      var s := new FileStorage(filePath, modelClass, metadata, uniqueFields, fm.value);
      return Success(s);
    }
  }
}
