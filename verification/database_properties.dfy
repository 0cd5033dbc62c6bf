/** Properties of the `JsonDatabase` operations that relate several calls:
    round trips between save, load and delete, the bulk operations against
    repeated single-record calls, and the id-keying invariant of the store. */
module DatabaseProperties {
  import opened Wrappers
  import opened JsonValue
  import opened JsonDatabase

  // ---------------------------------------------------------------------------
  // load and save

  /** Unfolding helper: a successful `save` is one map update of the
      (possibly new) collection. */
  lemma SaveStoresUnderId(s: Store, c: string, v: Record)
    requires IdOf(v).Found?
    ensures Save(s, c, v) == Ok(s[c := Objects(s, c)[IdOf(v).key := v]])
  {
  }

  /** Unfolding helper: a refused `save` raises with the collection already
      created. */
  lemma SaveRaisesAfterCreating(s: Store, c: string, v: Record)
    requires !IdOf(v).Found?
    ensures Save(s, c, v) == Raised(WithCollection(s, c), ErrorFor(IdOf(v)))
  {
  }

  /** A saved record is what `load` then returns under its id. */
  lemma LoadAfterSave(s: Store, c: string, v: Record)
    requires IdOf(v).Found?
    ensures Save(s, c, v).Ok?
    ensures Load(Save(s, c, v).store, c, IdOf(v).key) == Some(v)
    ensures forall c', k :: (c', k) != (c, IdOf(v).key) ==> Load(Save(s, c, v).store, c', k) == Load(s, c', k)
  {
    SaveStoresUnderId(s, c, v);
  }

  /** Saving the same record twice is the same as saving it once, whether or
      not the save raises. */
  lemma SaveIdempotent(s: Store, c: string, v: Record)
    ensures Save(Save(s, c, v).store, c, v) == Save(s, c, v)
  {
    var r := Save(s, c, v);
    var r2 := Save(r.store, c, v);
    if r.Ok? {
      assert r2.store[c] == r.store[c];
    }
    assert r2.store == r.store;
  }

  /** A record without a usable id raises; no stored record changes, and the
      only possible change is that an absent collection now exists, empty. */
  lemma SaveRejected(s: Store, c: string, v: Record)
    requires !IdOf(v).Found?
    ensures Save(s, c, v).Raised?
    ensures Save(s, c, v).error == (if IdOf(v).Missing? then NoIdFound else UnhashableId)
    ensures c in s ==> Save(s, c, v).store == s
    ensures c !in s ==> Save(s, c, v).store == s[c := map[]]
    ensures c !in s ==> Save(s, c, v).store != s
  {
  }

  /** Python's `True == 1`: a record whose id is `true` and one whose id is
      `1` occupy one slot, and the later save replaces the earlier. */
  lemma TrueAndOneShareASlot(s: Store, c: string, a: Record, b: Record)
    requires "id" in a && a["id"] == JBool(true)
    requires "id" in b && b["id"] == JInt(1)
    ensures Load(Save(Save(s, c, a).store, c, b).store, c, KInt(1)) == Some(b)
    ensures Save(Save(s, c, a).store, c, b).store == Save(s, c, b).store
  {
    assert IdOf(a) == Found(KInt(1)) && IdOf(b) == Found(KInt(1));
    var objects := Objects(s, c);
    SaveStoresUnderId(s, c, a);
    var r1 := s[c := objects[KInt(1) := a]];
    SaveStoresUnderId(r1, c, b);
    SaveStoresUnderId(s, c, b);
    assert objects[KInt(1) := a][KInt(1) := b] == objects[KInt(1) := b];
    assert r1[c := objects[KInt(1) := a][KInt(1) := b]] == s[c := objects[KInt(1) := b]];
  }

  // ---------------------------------------------------------------------------
  // load_bulk

  /** On an absent or empty collection `load_bulk` returns `[]`, never one
      `None` per requested id. */
  lemma LoadBulkAbsentIsEmpty(s: Store, c: string, ids: seq<Key>)
    requires !HasObjects(s, c) && |ids| > 0
    ensures LoadBulk(s, c, ids) == []
    ensures LoadBulk(s, c, ids) != seq(|ids|, _ => None)
  {
  }

  /** A requested id that appears twice gives the same answer twice. */
  lemma LoadBulkDuplicates(s: Store, c: string, ids: seq<Key>, i: nat, j: nat)
    requires HasObjects(s, c) && i < |ids| && j < |ids| && ids[i] == ids[j]
    ensures |LoadBulk(s, c, ids)| == |ids|
    ensures LoadBulk(s, c, ids)[i] == LoadBulk(s, c, ids)[j]
  {
  }

  // ---------------------------------------------------------------------------
  // delete and delete_bulk

  /** Deleting from an absent or empty collection, or deleting an id that is
      not there, leaves the store as it is. */
  lemma DeleteNoOp(s: Store, c: string, id: Key)
    requires !HasObjects(s, c) || id !in s[c]
    ensures Delete(s, c, id) == s
  {
    if c in s {
      assert Delete(s, c, id)[c] == s[c];
    }
  }

  /** After `delete`, `load` finds nothing under the deleted id and the same
      as before everywhere else. */
  lemma LoadAfterDelete(s: Store, c: string, id: Key)
    ensures Load(Delete(s, c, id), c, id) == None
    ensures forall c', k :: (c', k) != (c, id) ==> Load(Delete(s, c, id), c', k) == Load(s, c', k)
  {
  }

  /** Deleting a record that was just saved into an existing collection where
      its id was free undoes the save; into an absent collection, it leaves
      the collection behind, empty. */
  lemma DeleteUndoesSave(s: Store, c: string, v: Record)
    requires IdOf(v).Found? && IdOf(v).key !in Objects(s, c)
    ensures c in s ==> Delete(Save(s, c, v).store, c, IdOf(v).key) == s
    ensures c !in s ==> Delete(Save(s, c, v).store, c, IdOf(v).key) == s[c := map[]]
  {
    var r := Delete(Save(s, c, v).store, c, IdOf(v).key);
    assert r[c] == Objects(s, c);
  }

  /** The reference for `delete_bulk`: `delete` called once per id, in order. */
  function DeleteEach(s: Store, c: string, ids: seq<Key>): Store
    decreases |ids|
  {
    if |ids| == 0 then s else DeleteEach(Delete(s, c, ids[0]), c, ids[1..])
  }

  /** Collection `c` of `s` without the keys `ks`, if it exists. */
  function Without(s: Store, c: string, ks: set<Key>): Store {
    if c in s then s[c := s[c] - ks] else s
  }

  /** `delete` removes one key whether or not the collection is empty. */
  lemma DeleteIsWithout(s: Store, c: string, id: Key)
    ensures Delete(s, c, id) == Without(s, c, {id})
  {
  }

  /** Removing keys in two steps removes their union. */
  lemma WithoutTwice(s: Store, c: string, a: set<Key>, b: set<Key>)
    ensures Without(Without(s, c, a), c, b) == Without(s, c, a + b)
  {
    if c in s {
      assert s[c] - a - b == s[c] - (a + b);
    }
  }

  /** Repeated `delete` removes exactly the listed ids from `c`. */
  lemma {:induction false} DeleteEachRemovesListed(s: Store, c: string, ids: seq<Key>)
    ensures DeleteEach(s, c, ids) == Without(s, c, Listed(ids))
    decreases |ids|
  {
    if |ids| == 0 {
      assert Listed(ids) == {};
      if c in s {
        assert s[c] - {} == s[c];
        assert s[c := s[c]] == s;
      }
    } else {
      DeleteIsWithout(s, c, ids[0]);
      DeleteEachRemovesListed(Without(s, c, {ids[0]}), c, ids[1..]);
      WithoutTwice(s, c, {ids[0]}, Listed(ids[1..]));
      assert Listed(ids) == {ids[0]} + Listed(ids[1..]) by {
        assert forall k :: k in ids <==> k == ids[0] || k in ids[1..];
      }
    }
  }

  /** `delete_bulk` is `delete` called once per id, in order: bulk deletion
      has no behaviour of its own. */
  lemma DeleteBulkIsRepeatedDelete(s: Store, c: string, ids: seq<Key>)
    ensures DeleteBulk(s, c, ids) == DeleteEach(s, c, ids)
  {
  }

  /** `delete_bulk` on an absent or empty collection changes nothing. */
  lemma DeleteBulkNoOp(s: Store, c: string, ids: seq<Key>)
    requires !HasObjects(s, c)
    ensures DeleteBulk(s, c, ids) == s
  {
  }

  // ---------------------------------------------------------------------------
  // save_bulk

  /** The reference for `save_bulk`: `save` called once per record, in order,
      stopping at the first call that raises. */
  function SaveEach(s: Store, c: string, vs: seq<Record>): Outcome
    decreases |vs|
  {
    if |vs| == 0 then Ok(s)
    else match Save(s, c, vs[0])
      case Ok(s1) => SaveEach(s1, c, vs[1..])
      case Raised(s1, e) => Raised(s1, e)
  }

  /** The store with collection `c` replaced by the upsert loop's result, and
      the loop's exception if it raised one. */
  function AfterUpserts(s: Store, c: string, u: (Collection, Option<Error>)): Outcome {
    match u.1
    case None => Ok(s[c := u.0])
    case Some(e) => Raised(s[c := u.0], e)
  }

  /** One step of repeated `save` on a record with a usable id. */
  lemma SaveEachStep(s: Store, c: string, vs: seq<Record>)
    requires c in s && |vs| > 0 && IdOf(vs[0]).Found?
    ensures SaveEach(s, c, vs) == SaveEach(s[c := s[c][IdOf(vs[0]).key := vs[0]]], c, vs[1..])
  {
  }

  /** One step of the upsert loop on a record with a usable id. */
  lemma UpsertEachStep(objects: Collection, vs: seq<Record>)
    requires |vs| > 0 && IdOf(vs[0]).Found?
    ensures UpsertEach(objects, vs) == UpsertEach(objects[IdOf(vs[0]).key := vs[0]], vs[1..])
  {
  }

  /** The loop's result replaces collection `c`, whatever it held before. */
  lemma AfterUpsertsOverwrites(s: Store, c: string, objects: Collection, u: (Collection, Option<Error>))
    ensures AfterUpserts(s[c := objects], c, u) == AfterUpserts(s, c, u)
  {
  }

  /** On a store that already holds collection `c`, the upsert loop of
      `save_bulk` does what repeated `save` does. */
  lemma {:induction false} UpsertEachIsSaveEach(s: Store, c: string, vs: seq<Record>)
    requires c in s
    ensures SaveEach(s, c, vs) == AfterUpserts(s, c, UpsertEach(s[c], vs))
    decreases |vs|
  {
    if |vs| == 0 {
      assert s[c := s[c]] == s;
    } else if IdOf(vs[0]).Found? {
      var objects := s[c][IdOf(vs[0]).key := vs[0]];
      var s1 := s[c := objects];
      SaveEachStep(s, c, vs);
      UpsertEachStep(s[c], vs);
      UpsertEachIsSaveEach(s1, c, vs[1..]);
      AfterUpsertsOverwrites(s, c, objects, UpsertEach(objects, vs[1..]));
    } else {
      SaveRaisesAfterCreating(s, c, vs[0]);
      assert s[c := s[c]] == s;
    }
  }

  /** `save_bulk` is: create the collection if absent, then `save` each record
      in order until one raises. Records before the refused one stay saved,
      the refused one and all after it are not written, and a later record
      with an id already saved in the same call overwrites the earlier one. */
  lemma SaveBulkIsRepeatedSave(s: Store, c: string, vs: seq<Record>)
    ensures SaveBulk(s, c, vs) == SaveEach(WithCollection(s, c), c, vs)
  {
    UpsertEachIsSaveEach(WithCollection(s, c), c, vs);
  }

  /** On a non-empty list the first `save` creates the collection anyway, so
      `save_bulk` is plain repeated `save`; only the empty list differs, where
      `save_bulk` still creates the collection. */
  lemma SaveBulkNonEmptyIsRepeatedSave(s: Store, c: string, vs: seq<Record>)
    requires |vs| > 0
    ensures SaveBulk(s, c, vs) == SaveEach(s, c, vs)
  {
    SaveBulkIsRepeatedSave(s, c, vs);
    assert Save(WithCollection(s, c), c, vs[0]) == Save(s, c, vs[0]);
  }

  /** `save_bulk` of `[A(id=1), B(no id), C(id=3)]` raises on B, leaves A
      saved and does not write C. */
  lemma SaveBulkStopsAtFirstRefusal(s: Store, c: string, a: Record, b: Record, d: Record)
    requires "id" in a && a["id"] == JInt(1)
    requires "id" !in b
    requires "id" in d && d["id"] == JInt(3) && KInt(3) !in Objects(s, c)
    ensures SaveBulk(s, c, [a, b, d]).Raised?
    ensures SaveBulk(s, c, [a, b, d]).error == NoIdFound
    ensures Load(SaveBulk(s, c, [a, b, d]).store, c, KInt(1)) == Some(a)
    ensures Load(SaveBulk(s, c, [a, b, d]).store, c, KInt(3)) == None
  {
  }

  // ---------------------------------------------------------------------------
  // the id-keying invariant

  /** Every record in the collection is stored under its own id. */
  predicate KeyedByOwnId(objects: Collection) {
    forall k | k in objects :: IdOf(objects[k]) == Found(k)
  }

  /** Every record in the store is stored under its own id. A file loaded
      from disk need not satisfy this; `save` and `save_bulk` keep it. */
  predicate WellKeyed(s: Store) {
    forall c | c in s :: KeyedByOwnId(s[c])
  }

  /** `save` keeps every record under its own id. */
  lemma SavePreservesWellKeyed(s: Store, c: string, v: Record)
    requires WellKeyed(s)
    ensures WellKeyed(Save(s, c, v).store)
  {
  }

  /** The upsert loop writes each record under its own id. */
  lemma {:induction false} UpsertEachPreservesKeying(objects: Collection, vs: seq<Record>)
    requires KeyedByOwnId(objects)
    ensures KeyedByOwnId(UpsertEach(objects, vs).0)
    decreases |vs|
  {
    if |vs| > 0 && IdOf(vs[0]).Found? {
      UpsertEachPreservesKeying(objects[IdOf(vs[0]).key := vs[0]], vs[1..]);
    }
  }

  /** `save_bulk` keeps every record under its own id, even when it raises. */
  lemma SaveBulkPreservesWellKeyed(s: Store, c: string, vs: seq<Record>)
    requires WellKeyed(s)
    ensures WellKeyed(SaveBulk(s, c, vs).store)
  {
    UpsertEachPreservesKeying(WithCollection(s, c)[c], vs);
  }

  /** Removing records cannot break the keying. */
  lemma DeletePreservesWellKeyed(s: Store, c: string, id: Key)
    requires WellKeyed(s)
    ensures WellKeyed(Delete(s, c, id))
  {
  }

  /** Removing records in bulk cannot break the keying either. */
  lemma DeleteBulkPreservesWellKeyed(s: Store, c: string, ids: seq<Key>)
    requires WellKeyed(s)
    ensures WellKeyed(DeleteBulk(s, c, ids))
  {
  }
}
