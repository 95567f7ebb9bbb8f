/**
 * The browser's key-value store as the service sees it, the shape of the
 * blob the service writes there, and how a blob read back is merged into
 * the in-memory map. The JSON text itself is abstracted to the value it
 * denotes.
 */
module Storage {
  import opened Wrappers
  import opened Annotations
  import opened AnnotationMap

  /** Namespace of every key the service writes. */
  const StorageKeyPrefix: string := "civil-bim-annotations"

  /** The key of one project's blob: `"<prefix>:<projectId>"`. */
  function StorageKey(projectId: string): string {
    StorageKeyPrefix + ":" + projectId
  }

  /** The project id can be read back from its key, so distinct projects never share a blob. */
  lemma StorageKeyInjective(p: string, q: string)
    ensures StorageKey(p) == StorageKey(q) <==> p == q
    ensures StorageKey(p)[|StorageKeyPrefix| + 1..] == p
  {
  }

  /** One element of a parsed JSON array: an annotation record, or `null`. */
  datatype Element = Record(annotation: Annotation) | Nullish

  /**
   * A stored string as the loader sees it: the empty string (falsy, so
   * skipped), text that `JSON.parse` rejects or that parses to something
   * without `forEach`, or a JSON array.
   */
  datatype Blob = EmptyText | Malformed | JsonArray(elements: seq<Element>)

  /** The array elements denoting a sequence of records. */
  function Records(s: seq<Annotation>): (r: seq<Element>)
    ensures |r| == |s|
    ensures forall i :: 0 <= i < |s| ==> r[i] == Record(s[i])
  {
    if |s| == 0 then [] else [Record(s[0])] + Records(s[1..])
  }

  /** `JSON.stringify(Array.from(map.values()))`, abstracted to the array it denotes. */
  function Serialize(s: seq<Annotation>): Blob {
    JsonArray(Records(s))
  }

  /**
   * `items.forEach((a) => map.set(a.id, a))`: merge the records one by one,
   * a later duplicate id overwriting an earlier value in place. A `null`
   * element makes `a.id` throw; the exception is caught, so what was merged
   * before it stays and the rest is skipped.
   */
  function MergeElements(s: seq<Annotation>, es: seq<Element>): seq<Annotation>
    decreases |es|
  {
    if |es| == 0 then s
    else match es[0]
      case Nullish => s
      case Record(a) => MergeElements(Put(s, a), es[1..])
  }

  /** The map after `loadFromLocalStorage`, given what `getItem` returned. */
  function LoadBlob(s: seq<Annotation>, stored: Option<Blob>): seq<Annotation> {
    match stored
    case None => s
    case Some(EmptyText) => s
    case Some(Malformed) => s
    case Some(JsonArray(es)) => MergeElements(s, es)
  }

  /** Loading never breaks key uniqueness. */
  lemma {:induction false} MergePreservesUnique(s: seq<Annotation>, es: seq<Element>)
    requires UniqueIds(s)
    ensures UniqueIds(MergeElements(s, es))
    decreases |es|
  {
    if |es| > 0 && es[0].Record? {
      PutPreservesUnique(s, es[0].annotation);
      MergePreservesUnique(Put(s, es[0].annotation), es[1..]);
    }
  }

  /** Loading only adds: the keys already present keep their positions, first in the order. */
  lemma {:induction false} MergeKeepsExisting(s: seq<Annotation>, es: seq<Element>)
    ensures Ids(s) <= Ids(MergeElements(s, es))
    decreases |es|
  {
    if |es| > 0 && es[0].Record? {
      PutKeepsKeyOrder(s, es[0].annotation);
      MergeKeepsExisting(Put(s, es[0].annotation), es[1..]);
    }
  }

  /** Everything after the first `null` element is ignored. */
  lemma {:induction false} MergeStopsAtNull(s: seq<Annotation>, es: seq<Element>, rest: seq<Element>)
    ensures MergeElements(s, es + [Nullish] + rest) == MergeElements(s, es)
    decreases |es|
  {
    var all := es + [Nullish] + rest;
    if |es| == 0 {
      assert all[0] == Nullish;
    } else {
      assert all[0] == es[0];
      if es[0].Record? {
        assert all[1..] == es[1..] + [Nullish] + rest;
        MergeStopsAtNull(Put(s, es[0].annotation), es[1..], rest);
      }
    }
  }

  /** The last record with this id in `recs`, if any. */
  function LastWithId(recs: seq<Annotation>, id: string): Option<Annotation> {
    if |recs| == 0 then None
    else if recs[|recs| - 1].id == id then Some(recs[|recs| - 1])
    else LastWithId(recs[..|recs| - 1], id)
  }

  /** Appending one more record to a merge is one more `set`. */
  lemma {:induction false} MergeRecordsSnoc(s: seq<Annotation>, recs: seq<Annotation>, a: Annotation)
    ensures MergeElements(s, Records(recs + [a])) == Put(MergeElements(s, Records(recs)), a)
    decreases |recs|
  {
    if |recs| == 0 {
      assert Records([a]) == [Record(a)];
      assert Records(recs + [a])[1..] == [];
    } else {
      assert Records(recs + [a])[0] == Record(recs[0]);
      assert Records(recs + [a])[1..] == Records(recs[1..] + [a]);
      assert (recs + [a])[1..] == recs[1..] + [a];
      assert Records(recs)[1..] == Records(recs[1..]);
      MergeRecordsSnoc(Put(s, recs[0]), recs[1..], a);
    }
  }

  /**
   * Merging is keyed by id and the last duplicate wins: after the merge, an
   * id answers with its last record in the blob, or recs before when the blob
   * does not mention it.
   */
  lemma {:induction false} MergeLastWins(s: seq<Annotation>, recs: seq<Annotation>, id: string)
    ensures Get(MergeElements(s, Records(recs)), id)
         == (match LastWithId(recs, id) case Some(a) => Some(a) case None => Get(s, id))
    decreases |recs|
  {
    if |recs| == 0 {
    } else {
      var init, last := recs[..|recs| - 1], recs[|recs| - 1];
      assert recs == init + [last];
      MergeRecordsSnoc(s, init, last);
      MergeLastWins(s, init, id);
      if last.id == id {
        PutGet(MergeElements(s, Records(init)), last);
      } else {
        PutGetOther(MergeElements(s, Records(init)), last, id);
      }
    }
  }

  /** Merging the records of `t` onto `acc` appends them when no id repeats. */
  lemma {:induction false} MergeFreshRecords(acc: seq<Annotation>, t: seq<Annotation>)
    requires UniqueIds(acc + t)
    ensures MergeElements(acc, Records(t)) == acc + t
    decreases |t|
  {
    if |t| > 0 {
      var u := acc + t;
      assert !Contains(acc, t[0].id) by {
        forall i | 0 <= i < |acc| ensures acc[i].id != t[0].id {
          assert u[i] == acc[i] && u[|acc|] == t[0];
        }
      }
      PutFresh(acc, t[0]);
      assert acc + t == (acc + [t[0]]) + t[1..];
      assert Records(t)[1..] == Records(t[1..]);
      MergeFreshRecords(acc + [t[0]], t[1..]);
    }
  }

  /** The round trip: a fresh map that loads a persisted blob holds exactly the persisted records, in order. */
  lemma PersistThenLoad(s: seq<Annotation>)
    requires UniqueIds(s)
    ensures LoadBlob([], Some(Serialize(s))) == s
  {
    assert [] + s == s;
    MergeFreshRecords([], s);
  }

  /** Merging records already in the map changes nothing. */
  lemma {:induction false} MergeOwnRecords(s: seq<Annotation>, t: seq<Annotation>)
    requires UniqueIds(s)
    requires forall x :: x in t ==> x in s
    ensures MergeElements(s, Records(t)) == s
    decreases |t|
  {
    if |t| > 0 {
      assert t[0] in t;
      var k :| 0 <= k < |s| && s[k] == t[0];
      PutExisting(s, k, t[0]);
      assert s[k := t[0]] == s;
      assert Records(t)[1..] == Records(t[1..]);
      assert forall x :: x in t[1..] ==> x in t;
      MergeOwnRecords(s, t[1..]);
    }
  }

  /** Reloading a service's own persisted blob into it is a no-op. */
  lemma ReloadIsNoOp(s: seq<Annotation>)
    requires UniqueIds(s)
    ensures LoadBlob(s, Some(Serialize(s))) == s
  {
    MergeOwnRecords(s, s);
  }

  /** The browser's `localStorage`: a string-keyed store of blobs, shared by every service. */
  class LocalStorage {
    var items: map<string, Blob>

    constructor (initial: map<string, Blob>)
      ensures items == initial
    {
      items := initial;
    }

    /** `getItem(key)`: `null` when the key was never written. */
    function GetItem(key: string): (r: Option<Blob>)
      reads this
      ensures r.Some? <==> key in items
      ensures r.Some? ==> r.value == items[key]
    {
      if key in items then Some(items[key]) else None
    }

    /** `setItem(key, value)`: overwrite one key, leave all others. */
    method SetItem(key: string, value: Blob)
      modifies this
      ensures items == old(items)[key := value]
    {
      items := items[key := value];
    }
  }
}
