/**
 * JsonFileManager: one JSON file holding a metadata block and a map of
 * records keyed by integer id.  Opening it (re)initialises the file from
 * the configured metadata; `write` merges new records into the stored ones.
 */
module JsonFileManagers {
  import opened Wrappers
  import opened OrderedDicts
  import opened Json
  import opened Errors
  import opened Timestamps
  import opened JsonModels
  import opened Files

  /** The storage block every file this manager initialises carries. */
  const InitialStorage: Storage := Storage("file", "none")

  /**
   * `read`: the file's text validated as a FileData document; the
   * Timestamp validator moves updated_at to `now`.
   */
  function ReadDocument<T>(n: Node, model: RecordModel<T>, now: nat): (r: Result<FileData<T>, Error>)
    ensures !n.Regular? ==> r == Failure(ReadText(n).error)
    ensures n.Regular? && !n.content.Text? ==> r == Failure(ValidationError)
    ensures n.Regular? && n.content.Text? ==> r == ValidateFileData(n.content.doc, model, now)
  {
    var text := ReadText(n);
    if text.Failure? then Failure(text.error)
    else
      var doc := AsJson(text.value);
      if doc.Failure? then Failure(doc.error)
      else ValidateFileData(doc.value, model, now)
  }

  /** A successful read is of a regular file holding JSON, and its document is stamped updated at `now`. */
  lemma ReadDocumentAtNow<T>(n: Node, model: RecordModel<T>, now: nat)
    requires ReadDocument(n, model, now).Success?
    ensures n == Regular(Text(n.content.doc))
    ensures ReadDocument(n, model, now).value.metadata.timestamps.updatedAt == now
  {
    ValidatedAtNow(n.content.doc, model, now);
  }

  /** The dict `file_initializer` builds before validating it: the configured metadata, storage, both timestamps at now, no records. */
  function InitialJson(configured: BaseMetaData, now: nat): Json {
    JObject([
      ("metadata", JObject([
        ("version", JString(configured.version)),
        ("title", JString(configured.title)),
        ("description", JString(configured.description)),
        ("storage", JObject([("type", JString("file")), ("encryption", JString("none"))])),
        ("timestamps", JObject([(CreatedAt, JNumber(now)), (UpdatedAt, JNumber(now))]))])),
      ("records", JObject([]))])
  }

  /** The document a store starts with: the configured metadata, created and updated at now, no records. */
  function FreshDocument<T>(configured: BaseMetaData, now: nat): FileData<T> {
    FileData(FileMetaData(configured.version, configured.title, configured.description, InitialStorage, Timestamp(now, now)), [])
  }

  /** The dict `file_initializer` builds is valid and is the fresh document. */
  lemma InitialJsonValidates<T(!new)>(configured: BaseMetaData, model: RecordModel<T>, now: nat)
    ensures ValidateFileData(InitialJson(configured, now), model, now) == Success(FreshDocument(configured, now))
  {
    var d: FileData<T> := FreshDocument(configured, now);
    assert InitialJson(configured, now) == EncodeFileData(d, model);
    FileDataRoundTrip(d, model, now);
  }

  /**
   * What `file_initializer` leaves in the file: an empty file gets the
   * fresh document; a non-empty one is read first and only its created_at
   * survives; its records are dropped.
   */
  function Initialized<T>(n: Node, model: RecordModel<T>, configured: BaseMetaData, now: nat): Result<FileData<T>, Error> {
    var empty := SizeIsZero(n);
    if empty.Failure? then Failure(empty.error)
    else if empty.value then Success(FreshDocument(configured, now))
    else
      var stored := ReadDocument(n, model, now);
      if stored.Failure? then Failure(stored.error)
      else Success(FileData(
        FileMetaData(configured.version, configured.title, configured.description, InitialStorage,
          Timestamp(stored.value.metadata.timestamps.createdAt, now)),
        []))
  }

  /**
   * What `write` stores: the configured version, title and description,
   * the stored storage block, the stored created_at, updated_at now, and
   * the stored records overridden by the new ones.
   */
  function Updated<T>(stored: FileData<T>, configured: BaseMetaData, data: Dict<int, T>, now: nat): FileData<T> {
    FileData(
      FileMetaData(configured.version, configured.title, configured.description, stored.metadata.storage,
        Timestamp(stored.metadata.timestamps.createdAt, now)),
      Merge(stored.records, data))
  }

  class JsonFileManager<T(!new)> {
    const filePath: Path
    const modelClass: RecordModel<T>
    const metadata: BaseMetaData
    const disk: Disk

    constructor (filePath: Path, modelClass: RecordModel<T>, metadata: BaseMetaData, disk: Disk)
      ensures this.filePath == filePath && this.modelClass == modelClass
      ensures this.metadata == metadata && this.disk == disk
    {
      this.filePath := filePath;
      this.modelClass := modelClass;
      this.metadata := metadata;
      this.disk := disk;
    }

    /**
     * `JsonFileManager(file_path, model_class, metadata)`: creates the file
     * when it is missing, then initialises it.  A failure surfaces as the
     * error the constructor raises.
     */
    static method Open(filePath: string, modelClass: RecordModel<T>, metadata: BaseMetaData, disk: Disk, now: nat)
      returns (r: Result<JsonFileManager<T>, Error>)
      modifies disk
      ensures var init := Initialized(Touched(old(disk.node)), modelClass, metadata, now);
        && (init.Failure? ==> r == Failure(init.error) && disk.node == Touched(old(disk.node)))
        && (init.Success? ==> (
              && r.Success? && fresh(r.value) && r.value.disk == disk
              && r.value.filePath == Path(filePath) && r.value.modelClass == modelClass && r.value.metadata == metadata
              && disk.node == Regular(Text(EncodeFileData(init.value, modelClass)))))
    {
      var m := new JsonFileManager(Path(filePath), modelClass, metadata, disk);
      if !m.Exists() {
        m.Create();
      }
      var o := m.FileInitializer(now);
      if o.Fail? {
        return Failure(o.error);
      }
      return Success(m);
    }

    /** `exists`: the path exists exactly when touching it would change nothing. */
    function Exists(): (r: bool)
      reads disk
      ensures r <==> Touched(disk.node) == disk.node
    {
      !disk.node.Absent?
    }

    /**
     * `is_file_size_zero`: `stat` fails exactly when the path does not exist,
     * and an empty file is one no read can validate.
     */
    function IsFileSizeZero(): (r: Result<bool, Error>)
      reads disk
      ensures r.Success? <==> Exists()
      ensures r == Success(true) ==> forall now :: ReadDocument(disk.node, modelClass, now) == Failure(ValidationError)
    {
      SizeIsZero(disk.node)
    }

    /**
     * `read`: a missing path raises FileNotFoundError and an empty file is a
     * ValidationError (`ReadDocumentAtNow` states what a successful read gives).
     */
    function Read(now: nat): (r: Result<FileData<T>, Error>)
      reads disk
      ensures !Exists() ==> r == Failure(FileNotFoundError)
      ensures IsFileSizeZero() == Success(true) ==> r == Failure(ValidationError)
    {
      ReadDocument(disk.node, modelClass, now)
    }

    /** `update_timestamps`: created_at kept from the given timestamps, or now when there are none; updated_at now. */
    function UpdateTimestamps(timestamps: Option<Timestamp>, now: nat): (r: Timestamp)
      ensures r.createdAt == (if timestamps.Some? then timestamps.value.createdAt else now)
      ensures r.updatedAt == now
    {
      var createdAt := if timestamps.None? then now else timestamps.value.createdAt;
      TimestampRoundTrip(Timestamp(createdAt, now), now);
      ValidateCopiedTimestamp(EncodeTimestamp(Timestamp(createdAt, now)), now).value
    }

    /** `create`: touches the file; afterwards it exists. */
    method Create()
      modifies disk
      ensures disk.node == Touched(old(disk.node))
      ensures Exists()
    {
      disk.Touch();
    }

    method FileInitializer(now: nat) returns (o: Outcome<Error>)
      modifies disk
      ensures var init := Initialized(old(disk.node), modelClass, metadata, now);
        && (init.Failure? ==> o == Fail(init.error) && disk.node == old(disk.node))
        && (init.Success? ==> o == Pass && disk.node == Regular(Text(EncodeFileData(init.value, modelClass))))
    {
      var current := ValidateFileData(InitialJson(metadata, now), modelClass, now);
      InitialJsonValidates(metadata, modelClass, now);
      var doc := current.value;
      var empty := IsFileSizeZero();
      if empty.Failure? {
        return Fail(empty.error);
      }
      if !empty.value {
        var stored := Read(now);
        if stored.Failure? {
          return Fail(stored.error);
        }
        doc := doc.(metadata := doc.metadata.(timestamps := UpdateTimestamps(Some(stored.value.metadata.timestamps), now)));
      }
      o := disk.WriteText(EncodeFileData(doc, modelClass));
    }

    method Write(data: Dict<int, T>, now: nat) returns (o: Outcome<Error>)
      modifies disk
      ensures var stored := ReadDocument(old(disk.node), modelClass, now);
        && (stored.Failure? ==> o == Fail(stored.error) && disk.node == old(disk.node))
        && (stored.Success? ==> (
              && o == Pass
              && disk.node == Regular(Text(EncodeFileData(Updated(stored.value, metadata, data, now), modelClass)))))
    {
      var read := Read(now);
      if read.Failure? {
        return Fail(read.error);
      }
      var stored := read.value;
      stored := stored.(metadata := stored.metadata.(version := metadata.version));
      stored := stored.(metadata := stored.metadata.(title := metadata.title));
      stored := stored.(metadata := stored.metadata.(description := metadata.description));
      stored := stored.(metadata := stored.metadata.(timestamps := UpdateTimestamps(Some(stored.metadata.timestamps), now)));
      stored := stored.(records := Merge(stored.records, data));
      o := disk.WriteText(EncodeFileData(stored, modelClass));
    }

    /** `delete`: removes the file when it is a regular file, and nothing else. */
    method Delete()
      modifies disk
      ensures disk.node == (if old(disk.node).Regular? then Absent else old(disk.node))
      ensures !old(disk.node).Directory? ==> !Exists()
    {
      if Exists() && disk.node.Regular? {
        disk.Unlink();
      }
    }
  }

  /** `{**stored.records, **data}`: a new record wins over a stored one with the same id, every other stored record is kept, stored ids keep their order. */
  lemma WriteMergesRecords<T(!new)>(stored: FileData<T>, configured: BaseMetaData, data: Dict<int, T>, now: nat)
    ensures var r := Updated(stored, configured, data, now).records;
      && (forall k :: Get(r, k) == (if k in Keys(data) then Get(data, k) else Get(stored.records, k)))
      && ToMap(r) == ToMap(stored.records) + ToMap(data)
      && Keys(r) == Keys(stored.records) + Unseen(Keys(data), Keys(stored.records))
  {
    forall k {
      GetMerge(stored.records, data, k);
    }
    MergeIsMapUnion(stored.records, data);
    KeysMerge(stored.records, data);
  }

  /** Reading back what `write` stored gives the merged records and the configured metadata, with created_at unchanged. */
  lemma WriteThenRead<T(!new)>(stored: FileData<T>, configured: BaseMetaData, data: Dict<int, T>, model: RecordModel<T>, now: nat, later: nat)
    requires RoundTrips(model)
    ensures var back := ReadDocument(Regular(Text(EncodeFileData(Updated(stored, configured, data, now), model))), model, later);
      && back.Success?
      && back.value.records == Merge(stored.records, data)
      && back.value.metadata == FileMetaData(configured.version, configured.title, configured.description,
           stored.metadata.storage, Timestamp(stored.metadata.timestamps.createdAt, later))
  {
    FileDataRoundTrip(Updated(stored, configured, data, now), model, later);
  }

  /**
   * Two writes in a row keep the first created_at, take updated_at from the
   * second, and apply both merges in order; on a clock that does not run
   * backwards the result has created_at <= updated_at.
   */
  lemma SuccessiveWrites<T(!new)>(stored: FileData<T>, configured: BaseMetaData, d1: Dict<int, T>, d2: Dict<int, T>,
                                  model: RecordModel<T>, t1: nat, t2: nat)
    requires RoundTrips(model)
    ensures var back := ReadDocument(Regular(Text(EncodeFileData(Updated(stored, configured, d1, t1), model))), model, t2);
      && back.Success?
      && Updated(back.value, configured, d2, t2).metadata.timestamps == Timestamp(stored.metadata.timestamps.createdAt, t2)
      && Updated(back.value, configured, d2, t2).records == Merge(Merge(stored.records, d1), d2)
      && (stored.metadata.timestamps.createdAt <= t1 <= t2 ==>
            var ts := Updated(back.value, configured, d2, t2).metadata.timestamps;
            ts.createdAt <= ts.updatedAt == t2)
  {
    WriteThenRead(stored, configured, d1, model, t1, t2);
  }

  /** Opening a store that holds a document keeps its created_at and drops all its records. */
  lemma ReopenDropsRecords<T(!new)>(stored: FileData<T>, model: RecordModel<T>, configured: BaseMetaData, now: nat)
    requires RoundTrips(model)
    ensures Initialized(Regular(Text(EncodeFileData(stored, model))), model, configured, now) == Success(FileData(
      FileMetaData(configured.version, configured.title, configured.description, InitialStorage,
        Timestamp(stored.metadata.timestamps.createdAt, now)),
      []))
  {
    FileDataRoundTrip(stored, model, now);
  }

  /** A missing or empty path starts with the fresh document; a directory or a non-JSON file cannot be opened. */
  lemma InitializedCases<T(!new)>(model: RecordModel<T>, configured: BaseMetaData, now: nat)
    ensures Initialized(Touched(Absent), model, configured, now) == Success(FreshDocument(configured, now))
    ensures Initialized(Regular(Blank), model, configured, now) == Success(FreshDocument(configured, now))
    ensures Initialized(Touched(Directory), model, configured, now) == Failure(IsADirectoryError)
    ensures Initialized(Regular(Malformed), model, configured, now) == Failure(ValidationError)
    ensures Initialized(Absent, model, configured, now) == Failure(FileNotFoundError)
  {
  }

  /** Whatever the initialiser writes can be read back: its records are empty, so no record model is needed. */
  lemma InitializedReadsBack<T(!new)>(n: Node, model: RecordModel<T>, configured: BaseMetaData, now: nat, later: nat)
    requires Initialized(n, model, configured, now).Success?
    ensures var init := Initialized(n, model, configured, now).value;
      ReadDocument(Regular(Text(EncodeFileData(init, model))), model, later) == Success(ReadAt(init, later))
  {
    FileDataRoundTrip(Initialized(n, model, configured, now).value, model, later);
  }
}
