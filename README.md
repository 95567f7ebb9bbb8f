# Annotation service of the civil BIM viewer, in Dafny

This project models the annotation service of a browser BIM-model viewer.
Annotations are issues, notes and measurements anchored to a model object or
to a world-space point. The service keeps them in one in-memory map keyed by
annotation id. After every successful change it writes the whole collection
to `localStorage` under the key `"civil-bim-annotations:<projectId>"`. It can
merge a stored collection back in, and it can export the collection as JSON.

Modules:

- `Wrappers`: `Option`.
- `Annotations`: the record (`Annotation`, `Anchor`, `Viewpoint`, enums), the
  draft `add` accepts, the partial patch `update` accepts, and how a patch is
  spread over a record.
- `AnnotationMap`: the JavaScript `Map` with its insertion order, as the
  sequence of its values with unique ids (`Get`, `Put` = `set`, `Remove` =
  `delete`), and laws relating these to each other and to the reference
  removal `Without`.
- `Storage`: the storage key, the stored blob (`Blob`: empty text, text that
  does not parse, or a JSON array of records and `null`s), serialization,
  the merge performed on load, the persist/load round trip, and the
  `LocalStorage` class.
- `Service`: the `AnnotationService` class. Its `annotations` sequence field
  and the shared `LocalStorage` object are updated in place by
  `LoadFromLocalStorage`, `Add`, `Update` and `Delete`. `List` and
  `ExportJSON` only read. There are also four small client scenarios: page
  reload, corrupted blob, two projects, and delete-then-update.

Inputs: the browser APIs the service calls are modelled this way.

- `crypto.randomUUID()` becomes the `freshId` parameter of `Add`.
- `new Date().toISOString()` becomes the `now` parameter of `Add` and `Update`.
- `localStorage` becomes a `LocalStorage` object passed to the constructor.
- JSON text is abstracted to the value it denotes.

Behaviour of the code that the model keeps:

- A missing, empty or unparseable blob leaves the map as it was. A
  well-formed blob is merged into the existing map, record by record.
- A `null` element in the stored array makes `a.id` throw in the middle of
  `forEach`. The exception is caught, and the records before the `null` stay
  merged (`Storage.MergeStopsAtNull`).
- There is one map for all projects. `_persist(projectId)` writes every
  record under that project's key (`Service.ProjectsShareOneCollection`).
- `update` protects only `id` and `updatedAt`. `schemaVersion` and
  `createdAt` in a patch replace the stored values
  (`Annotations.OnlyIdAndUpdatedAtProtected`).
- The anchor is a record with a tag and two optional payloads. Nothing ties
  the tag to the payload that is present.

## Model

| member | source | states |
|---|---|---|
| `Annotations.NewAnnotation` | src/annotations/AnnotationService.ts:85-92 | the new record has the given fresh id, schema version "1.0", createdAt = updatedAt = now, and exactly the caller's fields (the draft reads back unchanged) |
| `Annotations.ApplyPatch` | src/annotations/AnnotationService.ts:102 | a patched record always has the requested id and updatedAt = now, whatever the patch holds |
| `Annotations.ApplyPatchFollowsPatch` | src/annotations/AnnotationService.ts:102 | every other property takes the patch's value when the patch has it and keeps the stored value otherwise |
| `Annotations.EmptyPatchOnlyTouches` | src/annotations/AnnotationService.ts:102 | an empty patch changes only updatedAt |
| `Annotations.OnlyIdAndUpdatedAtProtected` | src/annotations/AnnotationService.ts:102 | a patch carrying all of a record's properties, including createdAt and schemaVersion, installs them all except id and updatedAt, and an absent viewpoint does not clear the stored one |
| `Annotations.ApplyPatchThen` | src/annotations/AnnotationService.ts:99-106 | two successive updates of one record equal a single update with the combined patch, the later patch winning |
| `Annotations.ApplyPatchIdempotent` | src/annotations/AnnotationService.ts:102 | applying the same patch again at the same time changes nothing |
| `AnnotationMap.IndexOf` | src/annotations/AnnotationService.ts:100 | the lookup finds a position exactly when the id is present, at that position the record has the id, and no earlier record has it |
| `AnnotationMap.Get` | src/annotations/AnnotationService.ts:100 | `get` answers exactly when the id is present, and the answer is a stored record with that id |
| `AnnotationMap.PutFresh` | src/annotations/AnnotationService.ts:93 | setting a new key appends the record at the end and leaves every other entry as it was |
| `AnnotationMap.PutExisting` | src/annotations/AnnotationService.ts:103 | setting a present key replaces that one entry in place; the key order is unchanged |
| `AnnotationMap.PutPreservesUnique` | src/annotations/AnnotationService.ts:54 | `set` keeps keys unique |
| `AnnotationMap.PutKeepsKeyOrder` | src/annotations/AnnotationService.ts:67 | `set` adds at most one entry, never moves existing keys (the old keys are a prefix of the new ones), and makes the key present |
| `AnnotationMap.PutGet` | src/annotations/AnnotationService.ts:93 | after `set(a.id, a)`, `get(a.id)` returns `a` |
| `AnnotationMap.PutGetOther` | src/annotations/AnnotationService.ts:103 | `set` under one key leaves `get` on every other key unchanged |
| `AnnotationMap.RemoveIsWithout` | src/annotations/AnnotationService.ts:110 | `delete` equals the reference removal: the records without the id, in their original order |
| `AnnotationMap.RemoveGet` | src/annotations/AnnotationService.ts:110 | after `delete(id)` the id is absent and every other key answers as before |
| `AnnotationMap.RemovePreservesUnique` | src/annotations/AnnotationService.ts:110 | `delete` keeps keys unique |
| `AnnotationMap.Put` | src/annotations/AnnotationService.ts:93 | `Map.set(a.id, a)`, also used at lines 67 and 103; characterised by `PutFresh` (append for a new key), `PutExisting` (replace in place), `PutGet`, `PutGetOther`, `PutKeepsKeyOrder` and `PutPreservesUnique` |
| `AnnotationMap.Remove` | src/annotations/AnnotationService.ts:110 | `Map.delete(id)`; characterised by `RemoveIsWithout` (the order-preserving removal), `RemoveGet` and `RemovePreservesUnique` |
| `Storage.StorageKey` | src/annotations/AnnotationService.ts:62 | the key template `"civil-bim-annotations:" + projectId`, also at line 76; `StorageKeyInjective` shows the project id can be read back from it |
| `Storage.Serialize` | src/annotations/AnnotationService.ts:77 | `JSON.stringify(Array.from(values()))` as the array of records it denotes; `Records` gives one record per entry in order, and `PersistThenLoad` shows loading it back into an empty map restores the collection |
| `Storage.MergeElements` | src/annotations/AnnotationService.ts:67-70 | the `forEach` of `set` calls with its catch; characterised by `MergeLastWins`, `MergeStopsAtNull`, `MergeKeepsExisting` and `MergePreservesUnique` |
| `Storage.LoadBlob` | src/annotations/AnnotationService.ts:63-71 | the loader's branches: an absent, empty or unparseable blob leaves the map as it was, and a JSON array is merged by `MergeElements`; `PersistThenLoad` and `ReloadIsNoOp` are stated on it |
| `Storage.StorageKeyInjective` | src/annotations/AnnotationService.ts:62 | the project id can be read back from its key, so two projects have equal keys exactly when they are the same project |
| `Storage.MergePreservesUnique` | src/annotations/AnnotationService.ts:67 | loading keeps keys unique |
| `Storage.MergeKeepsExisting` | src/annotations/AnnotationService.ts:67 | loading merges and never removes: ids already present keep their positions, ahead of the new ones |
| `Storage.MergeStopsAtNull` | src/annotations/AnnotationService.ts:65-71 | a `null` array element ends the merge: everything after it is ignored and everything before it stays merged |
| `Storage.MergeLastWins` | src/annotations/AnnotationService.ts:67 | after a merge, each id answers with its last record in the blob, or as before when the blob does not mention it |
| `Storage.PersistThenLoad` | src/annotations/AnnotationService.ts:61-78 | loading a persisted collection into an empty map reproduces it exactly, with the same ids in the same order |
| `Storage.ReloadIsNoOp` | src/annotations/AnnotationService.ts:61-78 | loading a service's own persisted blob back into it changes nothing |
| `Storage.LocalStorage.constructor` | tests/unit/AnnotationService.test.ts:16-31 | a store begins with the given contents |
| `Storage.LocalStorage.GetItem` | src/annotations/AnnotationService.ts:63 | `getItem` returns a blob exactly when the key was written, and that blob is the stored one |
| `Storage.LocalStorage.SetItem` | src/annotations/AnnotationService.ts:77 | `setItem` overwrites one key and leaves every other key alone |
| `Service.AnnotationService.constructor` | src/annotations/AnnotationService.ts:54-58 | a new service has an empty map over the given store |
| `Service.AnnotationService.LoadFromLocalStorage` | src/annotations/AnnotationService.ts:61-72 | the map becomes the merge of the stored blob into the old map: unchanged when the blob is absent, empty or unparseable; otherwise records merged by id in order up to the first `null`; keys stay unique and the store is not written |
| `Service.AnnotationService.Persist` | src/annotations/AnnotationService.ts:75-78 | the project's key holds the serialization of the entire collection afterwards, and no other key changes |
| `Service.AnnotationService.Add` | src/annotations/AnnotationService.ts:81-96 | returns the record with the caller's fields, the fresh id, version "1.0" and both timestamps = now; it is set in the map (appended at the end when the id is new); the store holds the whole collection under the project key, other keys unchanged |
| `Service.AnnotationService.Update` | src/annotations/AnnotationService.ts:99-106 | for an unknown id: None, with map and store unchanged; otherwise returns the merged record (patch fields win, the rest is kept, id forced, updatedAt = now), which replaces the old one in place while other entries keep their values and order, and persists; an existing write-through is kept either way |
| `Service.AnnotationService.Delete` | src/annotations/AnnotationService.ts:109-113 | returns true exactly when the id was present; afterwards the id is absent, the other records keep their order and values, and the store is rewritten exactly when the result is true |
| `Service.AnnotationService.List` | src/annotations/AnnotationService.ts:116-118 | returns the whole collection in insertion order and changes nothing |
| `Service.AnnotationService.ExportJSON` | src/annotations/AnnotationService.ts:121-123 | the exported array is `list()` element by element, so it has the same length, and all elements are "1.0" when the records are; nothing changes |
| `Service.Reopen` | tests/unit/AnnotationService.test.ts:131-148 | a new service over the same store that loads a written-through project lists exactly the old service's records, in the same order |
| `Service.LoadCorrupted` | src/annotations/AnnotationService.ts:65-71 | a blob that does not parse raises nothing, and a fresh service stays empty |
| `Service.ProjectsShareOneCollection` | src/annotations/AnnotationService.ts:75-78 | after adds under projects a and b, b's blob holds both records: one map serves all projects |
| `Service.DeleteThenUpdate` | src/annotations/AnnotationService.ts:99-113 | after an add and a delete of an id, the delete reports true and an update of that id reports not found |

## Left out

- JSON text: the exact output of `JSON.stringify` (indentation, escaping, the different indentation of `exportJSON` and `_persist`) is abstracted to the array of records it denotes.
- Non-null array elements that are not annotation records (numbers, strings, objects without `id`) are not modelled. The source would store them under the key `undefined`. A blob is modelled as records and `null`s only.
- Enum-typed properties hold only their declared values. Unchecked JSON could hold other strings; that is not modelled.
- Patch values that are explicitly `undefined` are not modelled. A patch property is either absent or holds a value, so a patch cannot clear `viewpoint`.
- Floating point: `worldPos` and viewpoint vectors are opaque `real` values. JSON's loss of `NaN`, `-0` and infinities in a round trip is not modelled.
- `crypto.randomUUID()` and the clock are inputs. Id format and ISO-8601 shape are not checked.
- `Service.AnnotationService.Update`: does not state that `updatedAt` is not earlier than `createdAt`, because time is an input and the service does nothing to enforce it.
- `Service.AnnotationService.Add`: does not state that the id is new, because uniqueness comes from `crypto.randomUUID()`. The contract covers both an unseen id (append) and a colliding one (replace in place).
- Service.AnnotationService.Add, Service.AnnotationService.Update, Service.AnnotationService.List: aliasing is not modelled. In the source, `add` and `update` return the very object stored in the map, and `list()` copies the array but not the records in it. A caller that mutates a returned record therefore changes the in-memory map without a `_persist`, and the stored blob no longer matches the map. The model treats records as values, so `Persisted` cannot be broken this way.
- Exceptions from `localStorage.setItem` (quota exceeded, storage unavailable) are not modelled. The source does not handle them.
- `console.info` / `console.warn` logging and the unused `_viewer` field are left out.
- The viewer wrapper, UI controller, properties panel, tree view, model loader, conversion script and bootstrap code are not part of this model. They delegate to the external viewer library or to the DOM, network and file system.
