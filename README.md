# pydantic-storage, modelled in Dafny

This project models the core of pydantic-storage. The library keeps typed
records in one JSON file, next to a metadata block: version, title,
description, a storage descriptor and creation/update timestamps. It ships in
two variants, and both are modelled here.

- **json_file_storage**: `JsonFileManager`.
  - Opening the manager creates the file when it is missing, then rewrites it
    from the configured metadata (`file_initializer`).
  - `write` merges new records, keyed by integer id, into the stored ones.
- **pydantic_storage**: `FileManager`, on top of `BaseManager`.
  - The manager keeps the metadata and a list of records in memory.
  - `save` merges the in-memory metadata over the stored metadata and
    rewrites the whole file.
  - Constructing a manager creates the file, saves, then loads it back.
  - `FileStorage` builds such a manager, and `all` lists the records.

**Models and JSON.** The pydantic models of both variants are modelled as
validators from a parsed JSON value to a Dafny datatype, each paired with the
dump that `model_dump` writes:

- `Timestamp` with its before-validator;
- `Storage`;
- the metadata;
- `FileData` (records keyed by id) and `Data` (records as a list).

Round trips are proved for every model: validating a dump gives the value
back, except that `updated_at` becomes the validation instant. That
exception is what the Timestamp validator does.

**Dicts.** Python dicts are insertion-ordered association lists
(`OrderedDicts.Dict`). `{**a, **b}` is `Merge`, which is proved to be
last-writer-wins per key and equal to map union.

**Files.** The file at the manager's path is a `Files.Disk` object whose
node is one of:

- absent;
- a directory;
- a regular file holding nothing, a JSON document, or text that is not JSON.

**Stateful entities.** The managers are classes whose methods change the
disk and their own fields. Each method is specified in one of two ways:

- by a function of the old state (`Initialized`, `Updated`, `SaveSpec`,
  `Loaded`), with the source's promises proved about those functions as
  lemmas;
- or directly, where the effect is short.

**Errors.** An exception is a `Failure` carrying its kind. `TypeError` is
kept apart from `ValidationError` because a `TypeError` raised inside the
Timestamp validator escapes pydantic unwrapped.

Behaviour worth knowing before reading the model, each stated as the code
does it:

- **Opening a missing path (pydantic_storage).** `FileManager` touches an
  empty file. Its first `save` then finds no JSON and returns False, and
  `_load` raises `FileDataLoadError`, so construction fails
  (`FileManagers.OpenMissingPath`).
- **Opening an existing store (pydantic_storage).** `FileManager` saves its
  empty in-memory list before loading, so the stored records are lost
  (`FileManagers.OpenExistingStore`). They survive only when the stored
  document has no timestamps and the configured metadata has some
  (`FileManagers.OpenStoreWithoutTimestamps`).
- **Opening an existing store (json_file_storage).** `file_initializer`
  rewrites the file with `records: {}`, so reopening drops every record
  (`JsonFileManagers.ReopenDropsRecords`).
- **Where `storage` comes from.**
  - `JsonFileManager.write` keeps the stored storage descriptor.
  - `file_initializer` writes `{"type": "file", "encryption": "none"}`.
  - `FileManager.save` always writes `{"type": "file", "format": "json", "encryption": "utf-8"}`.
- **`updated_at >= created_at`.** Nothing enforces this. It holds only when
  the stored created_at is not later than the clock
  (`Timestamps.TimestampOrdered`, `JsonFileManagers.SuccessiveWrites`).
- **`FileStorage` construction.** `FileStorage` passes base metadata without
  a storage block to `FileManager`. Taking `MetaData` to be `FileMetaData`
  (see "## Left out"), construction therefore always fails with a
  validation error (`FileStorages.BaseMetaDataRejected`).
- **Version digits.** pydantic checks the version pattern with the Rust
  regex engine in Unicode mode, so `\d` accepts the decimal digits of every
  script (`Version.IsDecimalDigitCorrect`); "١.٠.٠" is a valid version
  (`Version.AcceptedExamples`).

## Model

| member | source | states |
|---|---|---|
| Timestamps.StampedFields | src/pydantic_storage/models/_models.py:26-29 | after the validator, created_at is the given one or now when absent, and updated_at is now |
| Timestamps.StampedOthers | src/pydantic_storage/models/_models.py:26-29 | the validator changes no key other than created_at and updated_at |
| Timestamps.StampInPlace | src/pydantic_storage/models/_models.py:25-30 | the pydantic_storage validator stamps the caller's dict in place and returns that same dict |
| Timestamps.StampCopy | src/json_file_storage/models/pydantic/_models.py:21-29 | the json_file_storage validator stamps a fresh copy (an empty dict for None) and leaves the argument alone |
| Timestamps.FromStampedFields | src/pydantic_storage/models/_models.py:13-30 | stamped values validate exactly when created_at is absent or an instant; otherwise a ValidationError; created and updated are as stamped |
| Timestamps.ValidateTimestampFields | src/pydantic_storage/models/_models.py:23-30 | a JSON object is stamped and validated; any other value raises TypeError inside the validator |
| Timestamps.ValidateCopiedTimestampFields | src/json_file_storage/models/pydantic/_models.py:19-29 | a falsy value gives created = updated = now; an object behaves as in pydantic_storage; an array goes through `dict()` first; a number or boolean is TypeError, a non-empty string a ValidationError |
| Timestamps.ItemPairsValidate | src/json_file_storage/models/pydantic/_models.py:21-22 | `dict(list(d.items()))` is `d`: a Timestamp sent as a list of `[key, value]` pairs validates as the dict itself |
| Timestamps.ItemElementErrors | src/json_file_storage/models/pydantic/_models.py:21-22 | `dict()` reads the elements in order: a non-iterable element is TypeError, a wrong-length one a ValidationError |
| Timestamps.TimestampRoundTrip | src/pydantic_storage/models/_models.py:13-30 | validating a dumped Timestamp keeps created_at and sets updated_at to now, in both variants |
| Timestamps.DefaultTimestamp | src/pydantic_storage/models/_models.py:14-29 | an empty object, or a null in json_file_storage, gives both timestamps at now |
| Timestamps.TimestampOrdered | src/pydantic_storage/models/_models.py:23-30 | a validated Timestamp has created_at <= updated_at when the given created_at is not later than now |
| Decimal.KeyRoundTrip | src/pydantic_storage/models/_models.py:58-61 | an int record id, written as a JSON object key, reads back as the same int |
| Decimal.EncodeKeyInjective | src/pydantic_storage/models/_models.py:58-61 | distinct ids give distinct JSON keys |
| RecordCodecs.RecordMapRoundTrip | src/pydantic_storage/models/_models.py:58-61 | the dumped `dict[int, T]` validates to the same records, in the same order |
| RecordCodecs.RecordListRoundTrip | src/pydantic_storage/_services/_managers/_file_manager.py:61-64 | the dumped `list[T]` validates to the same list |
| OrderedDicts.GetInsert | src/pydantic_storage/models/_models.py:27-29 | after `d[k] = v`, k maps to v and every other key is unchanged |
| OrderedDicts.GetMerge | src/json_file_storage/_services/_json_file_manager.py:131 | in `{**a, **b}` a key of b takes b's value and every other key keeps a's |
| OrderedDicts.KeysMerge | src/json_file_storage/_services/_json_file_manager.py:131 | `{**a, **b}` lists a's keys in order, then b's new keys in order |
| OrderedDicts.MergeIsMapUnion | src/json_file_storage/_services/_json_file_manager.py:131 | `{**a, **b}` has the entries of the map union with b overriding a |
| OrderedDicts.MergeSameKeys | src/pydantic_storage/_services/_managers/_file_manager.py:40 | merging two dicts with the same keys gives the second |
| OrderedDicts.SizeIsKeyCount | src/pydantic_storage/_services/_storages/_file_storage.py:22 | a dict has as many entries as distinct keys |
| Version.IsVersionCorrect | src/pydantic_storage/models/_models.py:45 | the executable recogniser accepts a string exactly when it matches the version pattern, `\d` read as any Unicode decimal digit |
| Version.IsDecimalDigitCorrect | src/pydantic_storage/models/_models.py:45 | the run-table search for `\d` holds exactly for the characters of the Unicode decimal digit runs |
| Version.AcceptedExamples | src/pydantic_storage/models/_models.py:43-45 | "1.0.0", "1.0.0-rc.1+b.2" and the Arabic-Indic "١.٠.٠" match the pattern |
| Version.RejectedExamples | src/pydantic_storage/models/_models.py:45 | "1.0" (the version in the schema example) and "1.0.0-" do not match |
| JsonModels.StorageRoundTrip | src/json_file_storage/models/pydantic/_models.py:32-34 | a dumped Storage validates back to itself |
| JsonModels.MetaDataRoundTrip | src/json_file_storage/models/pydantic/_models.py:37-45 | dumped metadata validates back, with any version string and updated_at at now |
| JsonModels.FileDataRoundTrip | src/json_file_storage/models/pydantic/_models.py:48-56 | a dumped document validates back with the same records and updated_at at now |
| JsonModels.ValidatedAtNow | src/json_file_storage/models/pydantic/_models.py:19-29 | every validated document has updated_at at the validation instant |
| JsonModels.ExtraKeysRejected | src/json_file_storage/models/pydantic/_models.py:55-56 | a top-level key other than metadata and records is a validation failure |
| JsonModels.RecordsDefaultEmpty | src/json_file_storage/models/pydantic/_models.py:50-53 | a document without records has no records |
| JsonModels.TimestampsRequired | src/json_file_storage/models/pydantic/_models.py:43-45 | metadata without timestamps fails; a null timestamps is stamped at now |
| StorageModels.StorageRoundTrip | src/pydantic_storage/models/_models.py:33-38 | a dumped three-field Storage validates back to itself |
| StorageModels.StorageRequiresAll | src/pydantic_storage/models/_models.py:33-38 | a missing or non-string type, format or encryption is a ValidationError |
| StorageModels.MetaDataRoundTrip | src/pydantic_storage/models/_models.py:41-53 | dumped metadata with a valid version validates back, updated_at at now when there are timestamps |
| StorageModels.ValidatedMetaDataValid | src/pydantic_storage/models/_models.py:42-46 | any validated metadata has a version matching the pattern |
| StorageModels.ValidatedDataValid | src/pydantic_storage/_services/_managers/_file_manager.py:80-82 | a validated Data document carries valid metadata |
| StorageModels.DefaultVersionValid | src/pydantic_storage/models/_models.py:42-46 | the default version satisfies its own pattern |
| StorageModels.VersionDefaultAndPattern | src/pydantic_storage/models/_models.py:42-46 | an absent version becomes "1.0.0"; a version string outside the pattern is rejected |
| StorageModels.MetaDataFieldRules | src/pydantic_storage/models/_models.py:51-53 | storage is required; absent or null timestamps give none |
| StorageModels.MergeKeepsInMemory | src/pydantic_storage/_services/_managers/_file_manager.py:40 | the merge of the stored and in-memory dumps is the in-memory dump: nothing stored survives |
| StorageModels.DataRoundTrip | src/pydantic_storage/_services/_managers/_file_manager.py:61-64 | a dumped Data document validates back with the same list and updated_at at now |
| StorageModels.FileDataRoundTrip | src/pydantic_storage/models/_models.py:56-63 | a dumped FileData validates back with the same records |
| StorageModels.ExtraKeysRejected | src/pydantic_storage/models/_models.py:63 | both documents reject any top-level key other than metadata and records |
| StorageModels.RecordsDefaultEmpty | src/pydantic_storage/models/_models.py:58-61 | both documents default to no records |
| Files.TouchedFacts | src/json_file_storage/_services/_json_file_manager.py:96 | after a touch the path exists, an existing path is untouched, and touching twice is touching once |
| Files.Disk.Touch | src/pydantic_storage/_services/_managers/_file_manager.py:70-71 | a missing file becomes an empty file; anything else stays |
| Files.Disk.WriteText | src/pydantic_storage/_services/_managers/_file_manager.py:65 | the file then holds exactly the document; a directory is IsADirectoryError and is unchanged |
| Files.Disk.Unlink | src/json_file_storage/_services/_json_file_manager.py:162 | a regular file, the only thing `unlink` is called on, is gone |
| JsonFileManagers.ReadDocumentAtNow | src/json_file_storage/_services/_json_file_manager.py:98-108 | a successful read is of a regular file holding JSON, and its document is stamped updated at the read instant |
| JsonFileManagers.InitialJsonValidates | src/json_file_storage/_services/_json_file_manager.py:53-69 | the dict the initialiser builds is valid and is the fresh document |
| JsonFileManagers.JsonFileManager.constructor | src/json_file_storage/_services/_json_file_manager.py:19-26 | the path, model class, metadata and disk are stored |
| JsonFileManagers.JsonFileManager.Open | src/json_file_storage/_services/_json_file_manager.py:19-33 | the file is touched when missing, then holds the initialised document; a failure leaves only the touch |
| JsonFileManagers.JsonFileManager.Exists | src/json_file_storage/_services/_json_file_manager.py:35-43 | the path exists exactly when touching it would change nothing |
| JsonFileManagers.JsonFileManager.IsFileSizeZero | src/json_file_storage/_services/_json_file_manager.py:45-47 | the size check fails exactly when the path does not exist; an empty file is one no read can validate |
| JsonFileManagers.JsonFileManager.Read | src/json_file_storage/_services/_json_file_manager.py:98-108 | a missing path is FileNotFoundError, an empty file a ValidationError |
| JsonFileManagers.JsonFileManager.UpdateTimestamps | src/json_file_storage/_services/_json_file_manager.py:139-148 | created_at is kept from the given timestamps (now when none), updated_at is now |
| JsonFileManagers.JsonFileManager.Create | src/json_file_storage/_services/_json_file_manager.py:83-96 | the file is touched and exists afterwards |
| JsonFileManagers.JsonFileManager.FileInitializer | src/json_file_storage/_services/_json_file_manager.py:49-81 | the file then holds the initialised document; on an error the file is unchanged |
| JsonFileManagers.JsonFileManager.Write | src/json_file_storage/_services/_json_file_manager.py:110-137 | a failed read changes nothing; otherwise the file holds the stored document updated with the configured metadata, new timestamps and merged records |
| JsonFileManagers.JsonFileManager.Delete | src/json_file_storage/_services/_json_file_manager.py:150-162 | a regular file is removed; an absent path or a directory is left alone; afterwards the path exists only if it is a directory |
| JsonFileManagers.WriteMergesRecords | src/json_file_storage/_services/_json_file_manager.py:131 | written records: a new id wins, other stored ids are kept, stored ids keep their order; map union |
| JsonFileManagers.WriteThenRead | src/json_file_storage/_services/_json_file_manager.py:98-137 | reading back a write gives the merged records and configured metadata, with created_at unchanged |
| JsonFileManagers.SuccessiveWrites | src/json_file_storage/_services/_json_file_manager.py:124-148 | two writes keep the first created_at, apply both merges in order, and on a clock that does not run backwards end with created_at <= updated_at == the second instant |
| JsonFileManagers.ReopenDropsRecords | src/json_file_storage/_services/_json_file_manager.py:49-81 | opening a store keeps its created_at and drops all its records |
| JsonFileManagers.InitializedCases | src/json_file_storage/_services/_json_file_manager.py:45-81 | a missing or empty file gets the fresh document; a directory, non-JSON text or an absent path fail with their errors |
| JsonFileManagers.InitializedReadsBack | src/json_file_storage/_services/_json_file_manager.py:79-81 | whatever the initialiser writes reads back, without any record model |
| FileManagers.MergedMetaData | src/pydantic_storage/_services/_managers/_file_manager.py:40-41 | re-validating the merged dump gives the in-memory metadata, refreshed at now |
| FileManagers.FileManager.constructor | src/pydantic_storage/abstractions/_managers/_base_manager.py:20-24 | the path, model class, disk and validated metadata are stored, with no records |
| FileManagers.FileManager.Open | src/pydantic_storage/abstractions/_managers/_base_manager.py:12-26 | invalid metadata fails before touching the disk; otherwise create-then-load, and the manager holds what the load read |
| FileManagers.FileManager.Save | src/pydantic_storage/_services/_managers/_file_manager.py:33-66 | result, metadata and file are those of SaveSpec on the old state; the records are unchanged; metadata stays valid |
| FileManagers.FileManager.Create | src/pydantic_storage/_services/_managers/_file_manager.py:68-72 | a missing file is touched, then saved without raising |
| FileManagers.FileManager.Load | src/pydantic_storage/_services/_managers/_file_manager.py:74-86 | on success the records and metadata are the file's; on failure nothing changes |
| FileManagers.FileManager.Write | src/pydantic_storage/_services/_managers/_file_manager.py:88-91 | the records are extended by the items, then saved without raising |
| FileManagers.SavedMetaDataValid | src/pydantic_storage/_services/_managers/_file_manager.py:41-52 | save changes only storage and timestamps of the in-memory metadata, so it stays valid |
| FileManagers.SaveThenLoad | src/pydantic_storage/_services/_managers/_file_manager.py:61-66 | after a successful save the file loads back as the saved metadata and exactly the in-memory records |
| FileManagers.SaveFailureWritesNothing | src/pydantic_storage/_services/_managers/_file_manager.py:33-59 | a save that does not succeed leaves the file alone; only read errors escape, otherwise False or FileDataLoadError as requested |
| FileManagers.SuccessiveSaves | src/pydantic_storage/_services/_managers/_file_manager.py:42-46 | a second save succeeds, keeps the created_at, takes updated_at from its own clock and stores its records |
| FileManagers.OpenMissingPath | src/pydantic_storage/_services/_managers/_file_manager.py:68-86 | on a missing path the first save returns False, the file is left empty, and the load raises FileDataLoadError |
| FileManagers.OpenExistingStore | src/pydantic_storage/abstractions/_managers/_base_manager.py:23-26 | on an existing store the save writes the empty list, so the loaded manager has no records; created_at survives |
| FileManagers.OpenStoreWithoutTimestamps | src/pydantic_storage/_services/_managers/_file_manager.py:42-45 | stored metadata without timestamps under configured metadata with them makes the save give up, and the load keeps the records |
| FileStorages.All | src/pydantic_storage/_services/_storages/_file_storage.py:19-22 | one record per id, in id insertion order, each the one stored under its id |
| FileStorages.AllCovers | src/pydantic_storage/_services/_storages/_file_storage.py:19-22 | every stored record is listed, and no records give an empty list |
| FileStorages.BaseMetaDataRejected | src/pydantic_storage/_services/_storages/_file_storage.py:8-17 | the base metadata has no storage block, so the manager construction fails with a ValidationError |
| FileStorages.FileStorage.constructor | src/pydantic_storage/abstractions/_storages/_base_file_storage.py:19-22 | the path, model class, metadata, unique fields and manager are stored |
| FileStorages.FileStorage.Open | src/pydantic_storage/_services/_storages/_file_storage.py:8-17 | a manager failure is the storage's failure and leaves the disk unchanged when the metadata is invalid; on success the manager uses the same path, model class and disk |

## Left out

- JSON text. Parsing, indentation, the trailing newline and the character encoding are not modelled. The file holds an already-parsed JSON value, nothing, or text that is not JSON.
- Datetimes. They are natural-number ticks, written as JSON numbers. Timezones, ISO-8601 strings and pydantic's datetime coercions are not modelled. Each operation reads the clock once, as its `now` parameter.
- Record classes. They are an abstract `RecordModel` (validate and dump). Round trips assume that each model's dump validates back.
- Integer keys are only the forms `-?digits`. pydantic's lax parsing of other spellings (a `+` sign, whitespace, underscores) is not modelled.
- Directories. `create` also makes the parent directories; that is not modelled, nor is writing below a missing directory.
- Permissions, symlinks, path normalisation by `Path`, and concurrent writers are not modelled.
- Exceptions are `Failure` values. Only their kind is kept, not their message or cause.
- JsonFileManager.constructor: the abstract base in `_abstract_file_manager.py` sets `file`, `pydantic_model` and `initial_data`, while `JsonFileManager` reads `file_path`, `model_class` and `metadata`. Also, `now_utc` is not defined in the json_file_storage models file. The model stores the attributes the manager reads.
- JsonFileManagers: the configured metadata is taken to be exactly the three strings of `BaseMetaDataDict`, in declaration order.
- Timestamps.AddPair: `dict(values)` of an array keeps a pair whose key is a number, boolean or null. The model leaves such a pair out, because no Timestamp field can be looked up by that key.
- FileManager: `BaseManager` declares an abstract `next_id` that `FileManager` does not implement, so Python refuses to instantiate it. The model follows `__init__` as if instantiation were allowed.
- FileManagers.FileManager.Save: `if self._metadata.timestamps` is taken to be true for any Timestamp, since pydantic models define no truth value. The rebuilt `Data` does not run validators again.
- FileStorages.All: `FileStorage.all` calls `self.manager.read()`, which `FileManager` does not define. `All` is therefore stated over the FileData document such a read would return, not over the manager's state.
- FileStorage: the other abstract operations of `BaseFileStorage` (`get`, `first`, `last` and the rest) are not implemented by `FileStorage` and are not modelled. `FileStorage` cannot be instantiated in Python for the same reason as `FileManager`.
- The `json_schema_extra` examples are documentation, not behaviour. The pattern rejects their version "1.0" (`Version.RejectedExamples`).
- The `metadata` and `data` properties of FileManager only return `_metadata` and `_data`. The model reads the fields directly. In Python the list `data` returns is the manager's own list, so a later `write` extends a list the caller already holds. The model keeps the records as a `seq` value and does not capture this aliasing.
- Data and MetaData are not part of the pydantic_storage models file. They are modelled as FileData with a list of records, and as FileMetaData.
- FileManagers.FileManager.Open: `MetaData(**metadata)` runs the in-place Timestamp validator on the caller's nested `timestamps` dict, so in Python the caller's dict is stamped too. The model passes metadata as a JSON value and does not show that side effect on the caller; `Timestamps.StampInPlace` models the mechanism on its own.
- Version: `DigitZeros` lists the decimal digit runs of Unicode 15.0. Digits that later Unicode versions add are not included.
