/**
 * FileManager (on BaseManager): keeps the metadata and the records list
 * in memory and mirrors them into one JSON file.  `save` merges the
 * in-memory metadata over the stored one and rewrites the whole file;
 * construction creates the file, saves, then loads it back.
 */
module FileManagers {
  import opened Wrappers
  import opened OrderedDicts
  import opened Json
  import opened Errors
  import opened Timestamps
  import opened StorageModels
  import opened Files

  /** The storage block `save` always writes. */
  const FileStorageBlock: Storage := Storage("file", "json", "utf-8")

  /** The file's text validated as a Data document. */
  function DecodeData<T>(c: Content, model: RecordModel<T>, now: nat): Result<Data<T>, Error> {
    var doc := AsJson(c);
    if doc.Failure? then Failure(doc.error) else ValidateData(doc.value, model, now)
  }

  /** `_load`: read errors escape; any validation problem becomes FileDataLoadError. */
  function Loaded<T>(n: Node, model: RecordModel<T>, now: nat): (r: Result<Data<T>, Error>)
    ensures !n.Regular? ==> r == Failure(ReadText(n).error)
    ensures n.Regular? ==> r == (if DecodeData(n.content, model, now).Success? then DecodeData(n.content, model, now) else Failure(FileDataLoadError))
  {
    var text := ReadText(n);
    if text.Failure? then Failure(text.error)
    else
      var d := DecodeData(text.value, model, now);
      if d.Failure? then Failure(FileDataLoadError) else d
  }

  /** What one `save` returns and leaves behind: its result, the in-memory metadata, the file. */
  datatype SaveState = SaveState(result: Result<bool, Error>, metadata: MetaData, node: Node)

  /** The metadata `save` writes: the in-memory one, with the file storage block and, when it has timestamps, the stored created_at and updated_at now. */
  function SavedMetaData(inMemory: MetaData, stored: MetaData, now: nat): MetaData {
    match (inMemory.timestamps, stored.timestamps)
    case (Some(_), Some(t)) => inMemory.(storage := FileStorageBlock, timestamps := Some(Timestamp(t.createdAt, now)))
    case _ => inMemory.(storage := FileStorageBlock)
  }

  /**
   * `save(raise_exception)` on a file and the in-memory state: read errors
   * escape; an invalid file, or stored metadata without timestamps under
   * in-memory metadata with them, gives False (or FileDataLoadError when
   * raising) and writes nothing; otherwise the file is rewritten with the
   * saved metadata and the in-memory records.
   */
  function SaveSpec<T>(n: Node, inMemory: MetaData, records: seq<T>, model: RecordModel<T>, raiseException: bool, now: nat): SaveState {
    var missed := if raiseException then Failure(FileDataLoadError) else Success(false);
    var text := ReadText(n);
    if text.Failure? then SaveState(Failure(text.error), inMemory, n)
    else
      var stored := DecodeData(text.value, model, now);
      if stored.Failure? then SaveState(missed, inMemory, n)
      else if inMemory.timestamps.Some? && stored.value.metadata.timestamps.None? then
        SaveState(missed, Refreshed(inMemory, now), n)
      else
        var m := SavedMetaData(inMemory, stored.value.metadata, now);
        SaveState(Success(true), m, Regular(Text(EncodeData(Data(m, records), model))))
  }

  /** Re-validating `{**stored.model_dump(), **in_memory.model_dump()}` gives the in-memory metadata, refreshed at now. */
  lemma MergedMetaData(stored: MetaData, inMemory: MetaData, now: nat)
    requires ValidMetaData(inMemory)
    ensures ValidateMetaData(JObject(Merge(DumpMetaData(stored), DumpMetaData(inMemory))), now) == Success(Refreshed(inMemory, now))
  {
    MergeKeepsInMemory(stored, inMemory);
    MetaDataRoundTrip(inMemory, now);
  }

  class FileManager<T(!new)> {
    const file: Path
    const modelClass: RecordModel<T>
    const disk: Disk
    const autoIdField: Option<string>
    var metadata: MetaData
    var data: seq<T>

    /** Every MetaData the manager holds came out of validation. */
    predicate Valid()
      reads this
    {
      ValidMetaData(metadata)
    }

    /** The field assignments of `BaseManager.__init__`, with the metadata already validated. */
    constructor (file: Path, modelClass: RecordModel<T>, metadata: MetaData, disk: Disk, autoIdField: Option<string>)
      requires ValidMetaData(metadata)
      ensures Valid()
      ensures this.file == file && this.modelClass == modelClass && this.disk == disk && this.autoIdField == autoIdField
      ensures this.metadata == metadata && this.data == []
    {
      this.file := file;
      this.modelClass := modelClass;
      this.metadata := metadata;
      this.data := [];
      this.disk := disk;
      this.autoIdField := autoIdField;
    }

    /**
     * `FileManager(uri, model_class, metadata)`: validates the metadata
     * (a failure touches nothing), then creates, saves and loads the file.
     * An exception surfaces as the returned error.
     */
    static method Open(uri: Uri, modelClass: RecordModel<T>, metadata: Dict<string, Json>, disk: Disk, now: nat)
      returns (r: Result<FileManager<T>, Error>)
      modifies disk
      ensures var m := ValidateMetaData(JObject(metadata), now);
        && (m.Failure? ==> r == Failure(m.error) && disk.node == old(disk.node))
        && (m.Success? ==> (
              var s := SaveSpec(Touched(old(disk.node)), m.value, [], modelClass, false, now);
              var l := Loaded(s.node, modelClass, now);
              && disk.node == s.node
              && (s.result.Failure? ==> r == Failure(s.result.error))
              && (s.result.Success? && l.Failure? ==> r == Failure(l.error))
              && (s.result.Success? && l.Success? ==> (
                    && r.Success? && fresh(r.value) && r.value.Valid()
                    && r.value.file == ToPath(uri) && r.value.modelClass == modelClass
                    && r.value.disk == disk && r.value.autoIdField == None
                    && r.value.data == l.value.records && r.value.metadata == l.value.metadata))))
    {
      var m := ValidateMetaData(JObject(metadata), now);
      if m.Failure? {
        return Failure(m.error);
      }
      ValidatedMetaDataValid(JObject(metadata), now);
      var fm := new FileManager(ToPath(uri), modelClass, m.value, disk, None);
      var created := fm.Create(now);
      if created.Fail? {
        return Failure(created.error);
      }
      var loaded := fm.Load(now);
      if loaded.Fail? {
        return Failure(loaded.error);
      }
      return Success(fm);
    }

    method Save(raiseException: bool, now: nat) returns (r: Result<bool, Error>)
      requires Valid()
      modifies this, disk
      ensures Valid()
      ensures var s := SaveSpec(old(disk.node), old(metadata), data, modelClass, raiseException, now);
        r == s.result && metadata == s.metadata && disk.node == s.node
      ensures data == old(data)
    {
      var missed := if raiseException then Failure(FileDataLoadError) else Success(false);
      var text := ReadText(disk.node);
      if text.Failure? {
        return Failure(text.error);
      }
      var stored := DecodeData(text.value, modelClass, now);
      if stored.Failure? {
        return missed;
      }
      var merged := ValidateMetaData(JObject(Merge(DumpMetaData(stored.value.metadata), DumpMetaData(metadata))), now);
      MergedMetaData(stored.value.metadata, metadata, now);
      metadata := merged.value;
      if metadata.timestamps.Some? {
        if stored.value.metadata.timestamps.None? {
          return missed;
        }
        metadata := metadata.(timestamps := Some(metadata.timestamps.value.(createdAt := stored.value.metadata.timestamps.value.createdAt)));
        metadata := metadata.(timestamps := Some(metadata.timestamps.value.(updatedAt := now)));
      }
      metadata := metadata.(storage := FileStorageBlock);
      var _ := disk.WriteText(EncodeData(Data(metadata, data), modelClass));
      return Success(true);
    }

    /** `_create`: touches a missing file, then saves without raising. */
    method Create(now: nat) returns (o: Outcome<Error>)
      requires Valid()
      modifies this, disk
      ensures Valid()
      ensures var s := SaveSpec(Touched(old(disk.node)), old(metadata), old(data), modelClass, false, now);
        && o == (if s.result.Failure? then Fail(s.result.error) else Pass)
        && metadata == s.metadata && disk.node == s.node && data == old(data)
    {
      if disk.node.Absent? {
        disk.Touch();
      }
      var r := Save(false, now);
      o := if r.Failure? then Fail(r.error) else Pass;
    }

    /** `_load`: replaces the records and the metadata by the file's, or fails and changes nothing. */
    method Load(now: nat) returns (o: Outcome<Error>)
      requires Valid()
      modifies this
      ensures Valid()
      ensures var l := Loaded(disk.node, modelClass, now);
        && (l.Failure? ==> o == Fail(l.error) && data == old(data) && metadata == old(metadata))
        && (l.Success? ==> o == Pass && data == l.value.records && metadata == l.value.metadata)
    {
      var text := ReadText(disk.node);
      if text.Failure? {
        return Fail(text.error);
      }
      var d := DecodeData(text.value, modelClass, now);
      if d.Failure? {
        return Fail(FileDataLoadError);
      }
      ValidatedDataValid(text.value.doc, modelClass, now);
      data := d.value.records;
      metadata := d.value.metadata;
      return Pass;
    }

    /** `write`: appends the items to the in-memory records, then saves without raising. */
    method Write(items: seq<T>, now: nat) returns (o: Outcome<Error>)
      requires Valid()
      modifies this, disk
      ensures Valid()
      ensures data == old(data) + items
      ensures var s := SaveSpec(old(disk.node), old(metadata), old(data) + items, modelClass, false, now);
        && o == (if s.result.Failure? then Fail(s.result.error) else Pass)
        && metadata == s.metadata && disk.node == s.node
    {
      data := data + items;
      var r := Save(false, now);
      o := if r.Failure? then Fail(r.error) else Pass;
    }
  }

  /** The saved metadata keeps the in-memory version, title and description: it stays valid. */
  lemma SavedMetaDataValid(inMemory: MetaData, stored: MetaData, now: nat)
    requires ValidMetaData(inMemory)
    ensures ValidMetaData(SavedMetaData(inMemory, stored, now))
    ensures SavedMetaData(inMemory, stored, now).(storage := inMemory.storage, timestamps := inMemory.timestamps) == inMemory
  {
  }

  /** After a successful save the file holds exactly the in-memory records, in order, under the saved metadata. */
  lemma SaveThenLoad<T(!new)>(n: Node, inMemory: MetaData, records: seq<T>, model: RecordModel<T>, raiseException: bool, now: nat, later: nat)
    requires RoundTrips(model) && ValidMetaData(inMemory)
    requires SaveSpec(n, inMemory, records, model, raiseException, now).result == Success(true)
    ensures var s := SaveSpec(n, inMemory, records, model, raiseException, now);
      Loaded(s.node, model, later) == Success(Data(Refreshed(s.metadata, later), records))
  {
    var s := SaveSpec(n, inMemory, records, model, raiseException, now);
    var stored := DecodeData(ReadText(n).value, model, now).value;
    SavedMetaDataValid(inMemory, stored.metadata, now);
    DataRoundTrip(Data(s.metadata, records), model, later);
  }

  /** A save that fails writes nothing; only the read errors of the file escape, everything else is False or FileDataLoadError. */
  lemma SaveFailureWritesNothing<T>(n: Node, inMemory: MetaData, records: seq<T>, model: RecordModel<T>, raiseException: bool, now: nat)
    ensures var s := SaveSpec(n, inMemory, records, model, raiseException, now);
      && (s.result != Success(true) ==> s.node == n)
      && (s.result.Failure? && n.Regular? ==> raiseException && s.result.error == FileDataLoadError)
      && (s.result.Success? && !s.result.value ==> !raiseException)
      && (!n.Regular? ==> s.result == Failure(ReadText(n).error))
  {
  }

  /** Two saves in a row keep the created_at of the file, take updated_at from the second, and rewrite the records each time. */
  lemma SuccessiveSaves<T(!new)>(n: Node, inMemory: MetaData, r1: seq<T>, r2: seq<T>, model: RecordModel<T>, t1: nat, t2: nat)
    requires RoundTrips(model) && ValidMetaData(inMemory)
    requires SaveSpec(n, inMemory, r1, model, false, t1).result == Success(true)
    ensures var s1 := SaveSpec(n, inMemory, r1, model, false, t1);
      var s2 := SaveSpec(s1.node, s1.metadata, r2, model, false, t2);
      && s2.result == Success(true)
      && s2.metadata.timestamps == (if s1.metadata.timestamps.Some? then Some(Timestamp(s1.metadata.timestamps.value.createdAt, t2)) else None)
      && Loaded(s2.node, model, t2) == Success(Data(s2.metadata, r2))
  {
    var s1 := SaveSpec(n, inMemory, r1, model, false, t1);
    var stored := DecodeData(ReadText(n).value, model, t1).value;
    SavedMetaDataValid(inMemory, stored.metadata, t1);
    SaveThenLoad(n, inMemory, r1, model, false, t1, t2);
    var s2 := SaveSpec(s1.node, s1.metadata, r2, model, false, t2);
    SavedMetaDataValid(s1.metadata, Refreshed(s1.metadata, t2), t2);
    SaveThenLoad(s1.node, s1.metadata, r2, model, false, t2, t2);
  }

  /** Constructing a manager on a missing path leaves an empty file behind and fails with FileDataLoadError: the save finds no JSON to load. */
  lemma OpenMissingPath<T>(inMemory: MetaData, model: RecordModel<T>, now: nat)
    ensures Touched(Absent) == Regular(Blank)
    ensures SaveSpec(Touched(Absent), inMemory, [], model, false, now) == SaveState(Success(false), inMemory, Regular(Blank))
    ensures Loaded(Regular(Blank), model, now) == Failure(FileDataLoadError)
  {
  }

  /**
   * Constructing a manager on an existing store wipes its records: the
   * initial save writes the empty in-memory list before loading.  The
   * stored created_at survives.
   */
  lemma OpenExistingStore<T(!new)>(stored: Data<T>, inMemory: MetaData, model: RecordModel<T>, now: nat)
    requires RoundTrips(model) && ValidMetaData(stored.metadata) && ValidMetaData(inMemory)
    requires inMemory.timestamps.Some? ==> stored.metadata.timestamps.Some?
    ensures var n := Regular(Text(EncodeData(stored, model)));
      var s := SaveSpec(Touched(n), inMemory, [], model, false, now);
      && s.result == Success(true)
      && s.metadata == SavedMetaData(inMemory, stored.metadata, now)
      && Loaded(s.node, model, now) == Success(Data(SavedMetaData(inMemory, stored.metadata, now), []))
  {
    var n := Regular(Text(EncodeData(stored, model)));
    DataRoundTrip(stored, model, now);
    var s := SaveSpec(Touched(n), inMemory, [], model, false, now);
    assert s.metadata == SavedMetaData(inMemory, stored.metadata, now);
    SaveThenLoad(n, inMemory, [], model, false, now, now);
  }

  /** A store whose metadata has no timestamps, opened with metadata that has, keeps its records: the save gives up and the load reads the file as it was. */
  lemma OpenStoreWithoutTimestamps<T(!new)>(stored: Data<T>, inMemory: MetaData, model: RecordModel<T>, now: nat)
    requires RoundTrips(model) && ValidMetaData(stored.metadata)
    requires inMemory.timestamps.Some? && stored.metadata.timestamps.None?
    ensures var n := Regular(Text(EncodeData(stored, model)));
      && SaveSpec(n, inMemory, [], model, false, now) == SaveState(Success(false), Refreshed(inMemory, now), n)
      && Loaded(n, model, now) == Success(stored)
  {
    DataRoundTrip(stored, model, now);
  }
}
