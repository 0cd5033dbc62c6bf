# JsonDatabase, in Dafny

A model of the in-memory half of mindflow's `JsonDatabase`
(`mindflow/db/db/json.py`). The store is a two-level map: collection name to
(object id to record). It has six operations on that map: `load`,
`load_bulk`, `delete`, `delete_bulk`, `save` and `save_bulk`.

Files and modules:

- `wrappers.dfy` (`Wrappers`): `Option`, the nothing-found sentinel (`None`).
- `json_value.dfy` (`JsonValue`): JSON values, Python's truthiness on them,
  and `IdOf`. `IdOf` is what a record's `"id"` field becomes as a dictionary
  key: a key, missing (absent or falsy), or unhashable (a non-empty list or
  dict).
- `json_database.dfy` (`JsonDatabase`): the store and the six operations as
  pure functions. A mutating call returns an `Outcome`: `Ok(store)`, or
  `Raised(store, error)` when Python raises. The raised outcome carries the
  store because mutations made before the `raise` persist.
- `database_properties.dfy` (`DatabaseProperties`): lemmas that relate
  several calls. They cover save/load/delete round trips and idempotence. They
  show that the bulk operations equal repeated single calls (`DeleteEach`,
  `SaveEach`). They also show that every operation preserves the invariant
  "every record is stored under its own id".

Edge cases the model keeps:

- An empty collection counts as absent wherever the code tests the
  truthiness of `collections.get(c, None)` (json.py:41, :44, :50, :57).
  `load_bulk` on an absent or empty collection returns `[]`, not one `None`
  per id.
- Any truthy JSON scalar is accepted as an id, strings and integers alike.
  Falsy ids are refused like missing ones (json.py:68, :79), so `0`, `""`,
  `false`, `null` and `[]` give `NoIdFound`.
- A non-empty list or dict id passes the truthiness test. It then raises the
  `TypeError` of json.py:69 and :80 when used as a dictionary key, which is
  `UnhashableId` here, not the missing-id `ValueError`.
- `true` and `1` are one key, because Python treats `True == 1` as the same
  dictionary key.
- `save` and `save_bulk` create the collection before they look at any id
  (json.py:64-66 and :74-76 run before :68 and :79). So a refused save can
  still leave a new empty collection behind.
- `save_bulk` is not atomic. Records before the first refused one stay
  saved, and no record after it is written.

## Model

| member | source | states |
|---|---|---|
| JsonValue.IdOf | mindflow/db/db/json.py:68-71 | a record's id is refused as missing exactly when the `"id"` field is absent or falsy; it is refused as unhashable exactly when it is a truthy list or dict; otherwise the record is stored under the key its id denotes |
| JsonValue.IdOfKeyToJson | mindflow/db/db/json.py:68-69 | every key except `0` and `""` is accepted as an id and stored under itself; `0` and `""` are refused |
| JsonDatabase.WithCollection | mindflow/db/db/json.py:64-66 | the first step of a save adds an absent collection as empty; it changes nothing when the collection exists, and no other collection changes |
| JsonDatabase.Load | mindflow/db/db/json.py:39-41 | `load` finds a record exactly when the collection exists and holds the id, and then returns the stored record; it finds nothing in an absent or empty collection |
| JsonDatabase.LoadBulk | mindflow/db/db/json.py:43-47 | on a non-empty collection the result has one entry per requested id, in order, each equal to `load` of that id; on an absent or empty collection it is `[]` |
| JsonDatabase.Delete | mindflow/db/db/json.py:49-53 | after `delete` the id is gone from the collection; every other record and every other collection is kept, and no collection is added or removed |
| JsonDatabase.PopEach | mindflow/db/db/json.py:60-61 | popping each listed id in turn leaves the collection minus exactly the listed ids |
| JsonDatabase.DeleteBulk | mindflow/db/db/json.py:55-61 | after `delete_bulk` the collection is its old contents minus the listed ids; other collections are untouched and no collection is added or removed |
| JsonDatabase.Save | mindflow/db/db/json.py:63-71 | `save` succeeds exactly when the id is usable; then the record is under its id and all other records are kept; when refused, the store is the old one with the collection created and the error names the cause; the collection exists afterwards either way |
| JsonDatabase.KeyedPrefix | mindflow/db/db/json.py:78-82 | the number of leading records with a usable id: all before it are usable, and the one at it is not |
| JsonDatabase.UpsertEach | mindflow/db/db/json.py:78-82 | the upsert loop raises exactly when some record has an unusable id, and the error is that of the first such record; the keys written are the old keys plus those of the records before it; untouched keys keep their records; each key holds the last record written to it |
| JsonDatabase.SaveBulk | mindflow/db/db/json.py:73-82 | `save_bulk` succeeds exactly when every id is usable; it always creates the collection; it writes the records before the first refused one (a later duplicate id wins) and nothing from the refused one on; other collections are untouched |
| DatabaseProperties.LoadAfterSave | mindflow/db/db/json.py:39-41 | after a successful save, `load` of the record's id returns that record, and `load` returns what it returned before for every other collection and id |
| DatabaseProperties.SaveIdempotent | mindflow/db/db/json.py:63-71 | saving the same record twice gives the same outcome and store as saving it once, on the success path and on the error path |
| DatabaseProperties.SaveRejected | mindflow/db/db/json.py:63-71 | a record without a usable id makes `save` raise with the matching error; an existing collection leaves the store identical; an absent one is added empty, so the store does change |
| DatabaseProperties.TrueAndOneShareASlot | mindflow/db/db/json.py:68-69 | a record with id `true` and one with id `1` occupy the same slot; the later save replaces the earlier |
| DatabaseProperties.LoadBulkAbsentIsEmpty | mindflow/db/db/json.py:44-47 | on an absent or empty collection, `load_bulk` of any non-empty id list is `[]` and not a list of `None`s |
| DatabaseProperties.LoadBulkDuplicates | mindflow/db/db/json.py:45 | an id requested twice gives equal entries at both positions |
| DatabaseProperties.DeleteNoOp | mindflow/db/db/json.py:49-53 | `delete` on an absent or empty collection, or of an id that is not there, leaves the store identical |
| DatabaseProperties.LoadAfterDelete | mindflow/db/db/json.py:49-53 | after `delete`, `load` of the deleted id finds nothing, and every other lookup is unchanged |
| DatabaseProperties.DeleteUndoesSave | mindflow/db/db/json.py:49-69 | deleting a record just saved under a free id restores the store when the collection existed; when it did not, an empty collection is left behind |
| DatabaseProperties.DeleteEachRemovesListed | mindflow/db/db/json.py:49-53 | calling `delete` once per id, in order, removes exactly the listed ids from the collection and changes nothing else |
| DatabaseProperties.DeleteBulkIsRepeatedDelete | mindflow/db/db/json.py:55-61 | `delete_bulk` equals calling `delete` once per id, in order |
| DatabaseProperties.DeleteBulkNoOp | mindflow/db/db/json.py:56-58 | `delete_bulk` on an absent or empty collection leaves the store identical |
| DatabaseProperties.UpsertEachIsSaveEach | mindflow/db/db/json.py:78-82 | once the collection exists, the upsert loop gives the same outcome and store as calling `save` on each record in order, stopping at the first one that raises |
| DatabaseProperties.SaveBulkIsRepeatedSave | mindflow/db/db/json.py:73-82 | `save_bulk` equals creating the collection and then calling `save` on each record in order until one raises, so nothing is rolled back |
| DatabaseProperties.SaveBulkNonEmptyIsRepeatedSave | mindflow/db/db/json.py:73-82 | on a non-empty list, `save_bulk` equals repeated `save` on the store as it was; only the empty list still creates the collection |
| DatabaseProperties.SaveBulkStopsAtFirstRefusal | mindflow/db/db/json.py:78-82 | `save_bulk` of `[A(id=1), B(no id), C(id=3)]` raises the missing-id error, leaves A loadable and does not write C |
| DatabaseProperties.SavePreservesWellKeyed | mindflow/db/db/json.py:63-71 | if every record is stored under its own id before a `save`, the same holds afterwards |
| DatabaseProperties.UpsertEachPreservesKeying | mindflow/db/db/json.py:78-82 | the upsert loop writes each record only under its own id |
| DatabaseProperties.SaveBulkPreservesWellKeyed | mindflow/db/db/json.py:73-82 | `save_bulk` keeps every record under its own id, including when it raises |
| DatabaseProperties.DeletePreservesWellKeyed | mindflow/db/db/json.py:49-53 | `delete` keeps every record under its own id |
| DatabaseProperties.DeleteBulkPreservesWellKeyed | mindflow/db/db/json.py:55-61 | `delete_bulk` keeps every record under its own id |

## Left out

- Construction and persistence are filesystem I/O and JSON (de)serialisation,
  so they are not modelled (json.py:10-37, :84-89). This covers
  `get_mindflow_dir`, the creation of the configuration directory,
  `create_and_load_json`, `save_file` and the global `JSON_DATABASE`. The
  initial store is an arbitrary input to every operation.
- Because of that, these properties are not stated: the round trip through
  `save_file` and a fresh load, and the creation of an empty file on first
  use. The conversion of integer keys into strings by a JSON round trip is
  left out too.
- `execute_no_trace` (mindflow/utils/execute.py) is left out. It only spawns
  a process and decodes its output, with no logic of its own.
- The abstract base class `Database` (mindflow/db/db/database.py) is not part
  of this model.
- Floating-point JSON numbers are left out. So is Python's `1.0 == 1` key
  equality that comes with them. Numbers are integers.
- Python aliasing is left out. The stored record is the caller's own dict
  object, so a later change by the caller would show through. Records here
  are immutable values.
- Which key object Python keeps is left out. When `true` replaces `1`, or the
  other way round, Python keeps the first key object, and only serialisation
  could show which one. The model identifies both as `KInt(1)`.
- The insertion order of dicts is left out, because maps here are unordered.
  The order matters only to serialisation.
- A loaded file whose collection values are not objects is not modelled.
  Collections are maps by type, which is the shape `load` and the other
  operations expect.
- Records are JSON objects by type (`Record` is a map from field name to
  value), so a loaded file whose records are `null` or other non-objects is
  not modelled. For such a file, Python's `load` returns `None` for a key that
  is present (json.py:41). `Load` here finds a record exactly when the key is
  present.
