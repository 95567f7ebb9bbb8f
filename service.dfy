/**
 * The annotation service: one in-memory map of annotation records, written
 * through to the key-value store after every successful change. Ids and
 * timestamps, which the service draws from `crypto.randomUUID()` and the
 * clock, are parameters of the operations that use them.
 */
module Service {
  import opened Wrappers
  import opened Annotations
  import opened AnnotationMap
  import opened Storage

  class AnnotationService {
    /** The store the service reads and writes (the page's `localStorage`). */
    const storage: LocalStorage
    /** The values of the service's map, in insertion order; each value's id is its key. */
    var annotations: seq<Annotation>

    ghost predicate Valid()
      reads this
    {
      UniqueIds(annotations)
    }

    constructor (storage: LocalStorage)
      ensures Valid()
      ensures this.storage == storage && annotations == []
    {
      this.storage := storage;
      annotations := [];
    }

    /** The blob under the project's key is the whole in-memory collection. */
    predicate Persisted(projectId: string)
      reads this, storage
    {
      storage.GetItem(StorageKey(projectId)) == Some(Serialize(annotations))
    }

    /**
     * Merge the project's stored blob into the map. A missing, empty or
     * unparseable blob leaves the map as it is; records are merged in blob
     * order, and a `null` element ends the merge early.
     */
    method LoadFromLocalStorage(projectId: string)
      requires Valid()
      modifies this
      ensures Valid()
      ensures annotations == LoadBlob(old(annotations), storage.GetItem(StorageKey(projectId)))
    {
      var raw := storage.GetItem(StorageKey(projectId));
      if raw.None? || raw.value.EmptyText? || raw.value.Malformed? {
        return;
      }
      var items := raw.value.elements;
      var i := 0;
      while i < |items|
        invariant 0 <= i <= |items|
        invariant UniqueIds(annotations)
        invariant MergeElements(annotations, items[i..]) == MergeElements(old(annotations), items)
        decreases |items| - i
      {
        assert items[i..][0] == items[i];
        match items[i]
        case Nullish =>
          return;
        case Record(a) =>
          assert items[i..][1..] == items[i + 1..];
          PutPreservesUnique(annotations, a);
          annotations := Put(annotations, a);
        i := i + 1;
      }
    }

    /** `_persist`: overwrite the project's key with the entire collection; no other key changes. */
    method Persist(projectId: string)
      modifies storage
      ensures Persisted(projectId)
      ensures storage.items == old(storage.items)[StorageKey(projectId) := Serialize(annotations)]
    {
      storage.SetItem(StorageKey(projectId), Serialize(annotations));
    }

    /**
     * Create a record from the caller's fields, the fresh id and the time,
     * set it in the map and persist.
     */
    method Add(projectId: string, draft: Draft, freshId: string, now: string) returns (full: Annotation)
      requires Valid()
      modifies this, storage
      ensures Valid()
      ensures full.id == freshId && full.schemaVersion == CurrentSchemaVersion
      ensures full.createdAt == now && full.updatedAt == now && DraftOf(full) == draft
      ensures annotations == Put(old(annotations), full)
      ensures !Contains(old(annotations), freshId) ==> annotations == old(annotations) + [full]
      ensures old(AllCurrentVersion(annotations)) ==> AllCurrentVersion(annotations)
      ensures Persisted(projectId)
      ensures storage.items == old(storage.items)[StorageKey(projectId) := Serialize(annotations)]
    {
      full := NewAnnotation(draft, freshId, now);
      PutPreservesUnique(annotations, full);
      if !Contains(annotations, freshId) {
        PutFresh(annotations, full);
      } else {
        var k := IndexOf(annotations, freshId).value;
        PutExisting(annotations, k, full);
      }
      annotations := Put(annotations, full);
      Persist(projectId);
    }

    /**
     * Patch the record with this id. An unknown id yields `None` and changes
     * nothing; otherwise the merged record replaces the old one in place and
     * the collection is persisted.
     */
    method Update(projectId: string, id: string, patch: Patch, now: string) returns (result: Option<Annotation>)
      requires Valid()
      modifies this, storage
      ensures Valid()
      ensures result.None? <==> !Contains(old(annotations), id)
      ensures result.None? ==> annotations == old(annotations) && storage.items == old(storage.items)
      ensures result.Some? ==> Get(old(annotations), id).Some?
      ensures result.Some? ==> result.value == ApplyPatch(Get(old(annotations), id).value, patch, id, now)
      ensures result.Some? ==> result.value.id == id && result.value.updatedAt == now
      ensures result.Some? ==> FollowsPatch(result.value, Get(old(annotations), id).value, patch)
      ensures result.Some? ==> annotations == Put(old(annotations), result.value)
      ensures result.Some? ==> Ids(annotations) == Ids(old(annotations))
      ensures result.Some? ==> forall j :: 0 <= j < |annotations| ==>
        annotations[j] == if annotations[j].id == id then result.value else old(annotations)[j]
      ensures result.Some? ==> Persisted(projectId)
      ensures result.Some? ==> storage.items == old(storage.items)[StorageKey(projectId) := Serialize(annotations)]
      ensures old(Persisted(projectId)) ==> Persisted(projectId)
    {
      var existing := Get(annotations, id);
      if existing.None? {
        return None;
      }
      var updated := ApplyPatch(existing.value, patch, id, now);
      ApplyPatchFollowsPatch(existing.value, patch, id, now);
      var k := IndexOf(annotations, id).value;
      PutExisting(annotations, k, updated);
      PutPreservesUnique(annotations, updated);
      annotations := Put(annotations, updated);
      Persist(projectId);
      result := Some(updated);
    }

    /**
     * Take out the record with this id. The result says whether it was
     * there; only then is the collection persisted.
     */
    method Delete(projectId: string, id: string) returns (deleted: bool)
      requires Valid()
      modifies this, storage
      ensures Valid()
      ensures deleted <==> Contains(old(annotations), id)
      ensures annotations == Remove(old(annotations), id)
      ensures annotations == Without(old(annotations), id)
      ensures !Contains(annotations, id)
      ensures forall other :: other != id ==> Get(annotations, other) == Get(old(annotations), other)
      ensures deleted ==> Persisted(projectId)
      ensures deleted ==> storage.items == old(storage.items)[StorageKey(projectId) := Serialize(annotations)]
      ensures !deleted ==> annotations == old(annotations) && storage.items == old(storage.items)
      ensures old(Persisted(projectId)) ==> Persisted(projectId)
    {
      deleted := Contains(annotations, id);
      ghost var before := annotations;
      RemoveIsWithout(before, id);
      RemovePreservesUnique(before, id);
      forall other | other != id
        ensures Get(Remove(before, id), other) == Get(before, other)
      {
        RemoveGet(before, id, other);
      }
      RemoveGet(before, id, id);
      annotations := Remove(annotations, id);
      if deleted {
        Persist(projectId);
      }
    }

    /** `list()`: every record, in insertion order; nothing changes. */
    method List() returns (all: seq<Annotation>)
      ensures all == annotations
    {
      all := annotations;
    }

    /**
     * `exportJSON()`: the document denoting `list()`; nothing changes. When
     * every record carries the current schema version, so does every
     * exported element.
     */
    method ExportJSON() returns (doc: Blob)
      ensures doc == Serialize(annotations)
      ensures AllCurrentVersion(annotations) ==> forall i :: 0 <= i < |doc.elements| ==>
        doc.elements[i].Record? && doc.elements[i].annotation.schemaVersion == CurrentSchemaVersion
    {
      var all := List();
      doc := Serialize(all);
    }
  }

  /**
   * A page reload: a new service over the same store loads the project and
   * lists exactly what the old one held, same ids in the same order.
   */
  method Reopen(original: AnnotationService, projectId: string) returns (reopened: AnnotationService)
    requires original.Valid() && original.Persisted(projectId)
    ensures fresh(reopened) && reopened.Valid()
    ensures reopened.storage == original.storage
    ensures reopened.annotations == original.annotations
  {
    reopened := new AnnotationService(original.storage);
    PersistThenLoad(original.annotations);
    reopened.LoadFromLocalStorage(projectId);
  }

  /** A blob that does not parse is ignored: the new service starts empty and nothing is raised. */
  method LoadCorrupted(projectId: string) returns (listed: seq<Annotation>)
    ensures listed == []
  {
    var store := new LocalStorage(map[StorageKey(projectId) := Malformed]);
    var service := new AnnotationService(store);
    service.LoadFromLocalStorage(projectId);
    listed := service.List();
  }

  /**
   * The map is shared by all projects: after adding one record under project
   * `a` and one under project `b`, the blob of `b` holds both.
   */
  method ProjectsShareOneCollection(a: string, b: string, first: Draft, second: Draft,
                                    id1: string, id2: string, now: string) returns (blobOfB: Option<Blob>)
    requires id1 != id2
    ensures blobOfB == Some(Serialize([NewAnnotation(first, id1, now), NewAnnotation(second, id2, now)]))
  {
    var store := new LocalStorage(map[]);
    var service := new AnnotationService(store);
    var x := service.Add(a, first, id1, now);
    var y := service.Add(b, second, id2, now);
    blobOfB := store.GetItem(StorageKey(b));
  }

  /** Once deleted, an id is unknown to a later update: it yields `None` and the store is untouched. */
  method DeleteThenUpdate(projectId: string, draft: Draft, id: string, patch: Patch, now: string)
    returns (deleted: bool, updated: Option<Annotation>)
    ensures deleted && updated.None?
  {
    var store := new LocalStorage(map[]);
    var service := new AnnotationService(store);
    var created := service.Add(projectId, draft, id, now);
    deleted := service.Delete(projectId, id);
    updated := service.Update(projectId, id, patch, now);
  }
}
