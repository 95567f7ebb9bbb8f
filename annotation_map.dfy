/**
 * The service's `Map<string, Annotation>`, keyed by each record's id. A
 * JavaScript Map iterates in insertion order and `set` on a key already
 * present replaces the value where it stands, so the map is modelled as the
 * sequence of its values in iteration order, each value's id being its key.
 */
module AnnotationMap {
  import opened Wrappers
  import opened Annotations

  /** No id occurs twice: the sequence is a faithful picture of a map. */
  predicate UniqueIds(s: seq<Annotation>) {
    forall i, j :: 0 <= i < j < |s| ==> s[i].id != s[j].id
  }

  /** `map.has(id)`. */
  predicate Contains(s: seq<Annotation>, id: string) {
    exists i :: 0 <= i < |s| && s[i].id == id
  }

  /** The keys in iteration order. */
  function Ids(s: seq<Annotation>): seq<string> {
    seq(|s|, i requires 0 <= i < |s| => s[i].id)
  }

  /** Every record carries the current schema version. */
  predicate AllCurrentVersion(s: seq<Annotation>) {
    forall i :: 0 <= i < |s| ==> s[i].schemaVersion == CurrentSchemaVersion
  }

  /** The position of the first record with this id. */
  function IndexOf(s: seq<Annotation>, id: string): (r: Option<nat>)
    ensures r.None? <==> !Contains(s, id)
    ensures r.Some? ==> r.value < |s| && s[r.value].id == id
    ensures r.Some? ==> forall j :: 0 <= j < r.value ==> s[j].id != id
  {
    if |s| == 0 then None
    else if s[0].id == id then Some(0)
    else match IndexOf(s[1..], id)
      case None => None
      case Some(k) => Some(k + 1)
  }

  /** `map.get(id)`. */
  function Get(s: seq<Annotation>, id: string): (r: Option<Annotation>)
    ensures r.Some? <==> Contains(s, id)
    ensures r.Some? ==> r.value.id == id && r.value in s
  {
    match IndexOf(s, id)
    case None => None
    case Some(k) => Some(s[k])
  }

  /** `map.set(a.id, a)`: replace in place when the key is present, append otherwise. */
  function Put(s: seq<Annotation>, a: Annotation): seq<Annotation> {
    match IndexOf(s, a.id)
    case None => s + [a]
    case Some(k) => s[k := a]
  }

  /** `map.delete(id)`: take out the entry with this id, if any. */
  function Remove(s: seq<Annotation>, id: string): seq<Annotation> {
    match IndexOf(s, id)
    case None => s
    case Some(k) => s[..k] + s[k + 1..]
  }

  /** Reference definition of removal: every record without this id, in order. */
  function Without(s: seq<Annotation>, id: string): seq<Annotation> {
    if |s| == 0 then []
    else (if s[0].id == id then [] else [s[0]]) + Without(s[1..], id)
  }

  /** Putting a record under a new key appends it and leaves the others where they are. */
  lemma PutFresh(s: seq<Annotation>, a: Annotation)
    requires !Contains(s, a.id)
    ensures Put(s, a) == s + [a]
  {
  }

  /** Putting a record under a present key replaces it in place. */
  lemma PutExisting(s: seq<Annotation>, k: nat, a: Annotation)
    requires UniqueIds(s) && k < |s| && s[k].id == a.id
    ensures Put(s, a) == s[k := a]
    ensures Ids(Put(s, a)) == Ids(s)
  {
  }

  /** `set` keeps the keys unique. */
  lemma PutPreservesUnique(s: seq<Annotation>, a: Annotation)
    requires UniqueIds(s)
    ensures UniqueIds(Put(s, a))
  {
  }

  /** `set` never moves or drops an existing key: the old keys are a prefix of the new ones. */
  lemma PutKeepsKeyOrder(s: seq<Annotation>, a: Annotation)
    ensures |s| <= |Put(s, a)| <= |s| + 1
    ensures Ids(s) <= Ids(Put(s, a))
    ensures Contains(Put(s, a), a.id)
  {
    var r := Put(s, a);
    assert forall i :: 0 <= i < |s| ==> r[i].id == s[i].id;
    assert Ids(s) == Ids(r)[..|s|];
    match IndexOf(s, a.id)
    case None => assert r[|s|].id == a.id;
    case Some(k) => assert r[k].id == a.id;
  }

  /** After `set(a.id, a)`, `get(a.id)` is `a`. */
  lemma PutGet(s: seq<Annotation>, a: Annotation)
    ensures Get(Put(s, a), a.id) == Some(a)
  {
    var r := Put(s, a);
    match IndexOf(s, a.id)
    case None =>
      assert r == s + [a];
      assert r[|s|].id == a.id;
      var j := IndexOf(r, a.id).value;
      assert j == |s|;
    case Some(k) =>
      assert r == s[k := a];
      assert r[k].id == a.id;
      var j := IndexOf(r, a.id).value;
      assert j == k;
  }

  /** `set` under one key does not change what `get` returns for another. */
  lemma PutGetOther(s: seq<Annotation>, a: Annotation, id: string)
    requires id != a.id
    ensures Get(Put(s, a), id) == Get(s, id)
  {
    var r := Put(s, a);
    assert forall i :: 0 <= i < |s| && s[i].id == id ==> r[i] == s[i];
    assert forall i :: 0 <= i < |r| && r[i].id == id ==> i < |s| && r[i] == s[i];
    match IndexOf(s, id)
    case None =>
      assert !Contains(r, id);
    case Some(k) =>
      assert r[k] == s[k];
      var j := IndexOf(r, id).value;
      assert j == k;
  }

  /** The reference removal drops exactly the records with this id and keeps the rest in order. */
  lemma {:induction false} WithoutAbsent(s: seq<Annotation>, id: string)
    requires !Contains(s, id)
    ensures Without(s, id) == s
  {
    if |s| > 0 {
      assert !Contains(s[1..], id) by {
        forall i | 0 <= i < |s[1..]| ensures s[1..][i].id != id {
          assert s[1..][i] == s[i + 1];
        }
      }
      WithoutAbsent(s[1..], id);
      assert s == [s[0]] + s[1..];
    }
  }

  /** `delete` is the reference removal: it drops the one entry and keeps the order of the others. */
  lemma {:induction false} RemoveIsWithout(s: seq<Annotation>, id: string)
    requires UniqueIds(s)
    ensures Remove(s, id) == Without(s, id)
  {
    if |s| == 0 {
    } else if s[0].id == id {
      assert !Contains(s[1..], id) by {
        forall i | 0 <= i < |s[1..]| ensures s[1..][i].id != id {
          assert s[1..][i] == s[i + 1];
        }
      }
      WithoutAbsent(s[1..], id);
      assert Remove(s, id) == s[1..];
    } else {
      var t := s[1..];
      assert UniqueIds(t) by {
        forall i, j | 0 <= i < j < |t| ensures t[i].id != t[j].id {
          assert t[i] == s[i + 1] && t[j] == s[j + 1];
        }
      }
      RemoveIsWithout(t, id);
      match IndexOf(s, id)
      case None =>
        WithoutAbsent(s, id);
      case Some(k) =>
        assert k >= 1;
        assert IndexOf(t, id) == Some(k - 1);
        assert Remove(t, id) == t[..k - 1] + t[k..];
        assert s[..k] + s[k + 1..] == [s[0]] + (t[..k - 1] + t[k..]);
    }
  }

  /** After `delete(id)`, `get(id)` misses and every other key answers as before. */
  lemma RemoveGet(s: seq<Annotation>, id: string, other: string)
    requires UniqueIds(s)
    ensures !Contains(Remove(s, id), id)
    ensures other != id ==> Get(Remove(s, id), other) == Get(s, other)
  {
    var r := Remove(s, id);
    match IndexOf(s, id)
    case None =>
    case Some(k) =>
      assert forall i :: 0 <= i < |r| ==> r[i] == (if i < k then s[i] else s[i + 1]);
      if other != id {
        match IndexOf(s, other)
        case None =>
          assert !Contains(r, other);
        case Some(m) =>
          var m' := if m < k then m else m - 1;
          assert r[m'] == s[m];
          var j := IndexOf(r, other).value;
          assert j == m';
      }
  }

  /** `delete` keeps the keys unique. */
  lemma RemovePreservesUnique(s: seq<Annotation>, id: string)
    requires UniqueIds(s)
    ensures UniqueIds(Remove(s, id))
  {
  }
}
