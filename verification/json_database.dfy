/** The in-memory half of `JsonDatabase` (mindflow/db/db/json.py): a two-level
    map, collection name to (object id to record), and its six operations.

    Python mutates `self.collections` in place; here every operation is a pure
    function from the old store to the new one. A raised exception is the
    `Raised` outcome, which still carries the store, because the mutations made
    before the `raise` persist. */
module JsonDatabase {
  import opened Wrappers
  import opened JsonValue

  type Collection = map<Key, Record>
  type Store = map<string, Collection>

  /** `ValueError("No ID found in object")`, or the `TypeError` of using a list
      or dict as a dictionary key. */
  datatype Error = NoIdFound | UnhashableId

  /** The store after a mutating call, and the exception it raised, if any. */
  datatype Outcome = Ok(store: Store) | Raised(store: Store, error: Error)

  /** The exception `save` raises for an id that is not a usable key. */
  function ErrorFor(st: IdStatus): Error
    requires !st.Found?
  {
    if st.Missing? then NoIdFound else UnhashableId
  }

  /** `collections.get(collection, {})`. */
  function Objects(s: Store, c: string): Collection {
    if c in s then s[c] else map[]
  }

  /** The truthiness of `collections.get(collection, None)`: an empty
      collection counts as absent. */
  predicate HasObjects(s: Store, c: string) {
    c in s && |s[c]| > 0
  }

  /** `objects.get(object_id, None)`. */
  function Get(objects: Collection, id: Key): Option<Record> {
    if id in objects then Some(objects[id]) else None
  }

  /** The first step of `save` and `save_bulk`: an absent collection is
      created empty (an empty one is re-stored, which changes nothing). */
  function WithCollection(s: Store, c: string): (r: Store)
    ensures c in r && r[c] == Objects(s, c)
    ensures r.Keys == s.Keys + {c}
    ensures forall c' :: c' in s && c' != c ==> r[c'] == s[c']
    ensures c in s ==> r == s
  {
    var objects := Objects(s, c);
    if objects == map[] then s[c := objects] else s
  }

  /** `load`: the record stored under `id` in collection `c`, if any. An
      absent or empty collection finds nothing. */
  function Load(s: Store, c: string, id: Key): (r: Option<Record>)
    ensures r.Some? <==> c in s && id in s[c]
    ensures r.Some? ==> r.value == s[c][id]
  {
    if !HasObjects(s, c) then None else Get(s[c], id)
  }

  /** `load_bulk`: one lookup per requested id, in order, on a non-empty
      collection; the empty list on an absent or empty one. */
  function LoadBulk(s: Store, c: string, ids: seq<Key>): (r: seq<Option<Record>>)
    ensures HasObjects(s, c) ==> |r| == |ids|
    ensures HasObjects(s, c) ==> forall k :: 0 <= k < |ids| ==> r[k] == Load(s, c, ids[k])
    ensures !HasObjects(s, c) ==> r == []
  {
    if HasObjects(s, c) then
      var objects := s[c];
      seq(|ids|, k requires 0 <= k < |ids| => Get(objects, ids[k]))
    else
      []
  }

  /** `delete`: removes `id` from collection `c`; everything else is kept. */
  function Delete(s: Store, c: string, id: Key): (r: Store)
    ensures r.Keys == s.Keys
    ensures forall c' :: c' in s && c' != c ==> r[c'] == s[c']
    ensures c in s ==> id !in r[c]
    ensures c in s ==> forall k :: k in s[c] && k != id ==> k in r[c] && r[c][k] == s[c][k]
    ensures c in s ==> r[c].Keys <= s[c].Keys
  {
    if HasObjects(s, c) then s[c := s[c] - {id}] else s
  }

  /** The keys listed in `ids`. */
  function Listed(ids: seq<Key>): set<Key> {
    set k | k in ids
  }

  /** The `for` loop of `delete_bulk`: `objects.pop(object_id, None)` for each
      id in order. */
  function PopEach(objects: Collection, ids: seq<Key>): (r: Collection)
    ensures r == objects - Listed(ids)
    decreases |ids|
  {
    if |ids| == 0 then objects
    else
      var rest := PopEach(objects - {ids[0]}, ids[1..]);
      assert Listed(ids) == {ids[0]} + Listed(ids[1..]) by {
        assert forall k :: k in ids <==> k == ids[0] || k in ids[1..];
      }
      assert objects - {ids[0]} - Listed(ids[1..]) == objects - Listed(ids);
      rest
  }

  /** `delete_bulk`: removes every listed id from collection `c`; an absent or
      empty collection is left as it is, and so is everything else. */
  function DeleteBulk(s: Store, c: string, ids: seq<Key>): (r: Store)
    ensures r.Keys == s.Keys
    ensures forall c' :: c' in s && c' != c ==> r[c'] == s[c']
    ensures c in s ==> r[c] == s[c] - Listed(ids)
  {
    if !HasObjects(s, c) then
      assert c in s ==> s[c] - Listed(ids) == s[c];
      s
    else
      s[c := PopEach(s[c], ids)]
  }

  /** `save`: creates collection `c` if absent, then stores `v` under its id,
      or raises when the id is missing, falsy or unhashable. */
  function Save(s: Store, c: string, v: Record): (r: Outcome)
    ensures r.store.Keys == s.Keys + {c}
    ensures forall c' :: c' in s && c' != c ==> r.store[c'] == s[c']
    ensures r.Ok? <==> IdOf(v).Found?
    ensures r.Ok? ==> r.store[c].Keys == Objects(s, c).Keys + {IdOf(v).key}
    ensures r.Ok? ==> r.store[c][IdOf(v).key] == v
    ensures r.Ok? ==> forall k :: k in Objects(s, c) && k != IdOf(v).key ==> r.store[c][k] == Objects(s, c)[k]
    ensures r.Raised? ==> r.store == WithCollection(s, c) && r.error == ErrorFor(IdOf(v))
  {
    var created := WithCollection(s, c);
    match IdOf(v)
    case Found(k) => Ok(created[c := created[c][k := v]])
    case Missing => Raised(created, NoIdFound)
    case Unhashable => Raised(created, UnhashableId)
  }

  /** The number of leading values of `vs` whose id is a usable key: the
      index of the first value `save` would refuse, or `|vs|` if none. */
  function KeyedPrefix(vs: seq<Record>): (n: nat)
    ensures n <= |vs|
    ensures forall i :: 0 <= i < n ==> IdOf(vs[i]).Found?
    ensures n < |vs| ==> !IdOf(vs[n]).Found?
    decreases |vs|
  {
    if |vs| == 0 || !IdOf(vs[0]).Found? then 0 else 1 + KeyedPrefix(vs[1..])
  }

  /** The keys of the values in `vs` that have one. */
  function KeysOf(vs: seq<Record>): set<Key> {
    set i | 0 <= i < |vs| && IdOf(vs[i]).Found? :: IdOf(vs[i]).key
  }

  /** True iff no value after position `i` of `vs` has the same id as `vs[i]`. */
  predicate LastWithItsId(vs: seq<Record>, i: int)
    requires 0 <= i < |vs|
  {
    forall j :: i < j < |vs| ==> IdOf(vs[j]) != IdOf(vs[i])
  }

  /** The `for` loop of `save_bulk` on the collection's dict: upserts values in
      order and stops at the first one whose id is refused. */
  function UpsertEach(objects: Collection, vs: seq<Record>): (r: (Collection, Option<Error>))
    ensures r.1.None? <==> KeyedPrefix(vs) == |vs|
    ensures r.1.Some? ==> r.1.value == ErrorFor(IdOf(vs[KeyedPrefix(vs)]))
    ensures r.0.Keys == objects.Keys + KeysOf(vs[..KeyedPrefix(vs)])
    ensures forall k :: k in objects && k !in KeysOf(vs[..KeyedPrefix(vs)]) ==> k in r.0 && r.0[k] == objects[k]
    ensures forall i :: 0 <= i < KeyedPrefix(vs) && LastWithItsId(vs[..KeyedPrefix(vs)], i) ==>
              IdOf(vs[i]).key in r.0 && r.0[IdOf(vs[i]).key] == vs[i]
    decreases |vs|
  {
    if |vs| == 0 then (objects, None)
    else match IdOf(vs[0])
      case Found(k) =>
        var r := UpsertEach(objects[k := vs[0]], vs[1..]);
        UpsertStepKeys(objects, vs, r);
        UpsertStepLast(objects, vs, r);
        r
      case Missing => (objects, Some(NoIdFound))
      case Unhashable => (objects, Some(UnhashableId))
  }

  /** The keys of a list are the first value's key and the keys of the rest. */
  lemma KeysOfCons(vs: seq<Record>)
    requires |vs| > 0 && IdOf(vs[0]).Found?
    ensures KeysOf(vs) == {IdOf(vs[0]).key} + KeysOf(vs[1..])
  {
  }

  /** A value last with its id has no later namesake; dropping the head keeps
      the others last with theirs. */
  lemma LastWithItsIdCons(vs: seq<Record>, i: int)
    requires 0 <= i < |vs| && IdOf(vs[0]).Found? && LastWithItsId(vs, i)
    ensures i == 0 ==> IdOf(vs[0]).key !in KeysOf(vs[1..])
    ensures i > 0 ==> LastWithItsId(vs[1..], i - 1)
  {
  }

  /** The inductive step of `UpsertEach` for its error and its keys: what the
      contract of the recursive call on the tail gives for the whole list. */
  lemma UpsertStepKeys(objects: Collection, vs: seq<Record>, r: (Collection, Option<Error>))
    requires |vs| > 0 && IdOf(vs[0]).Found?
    requires var tail := vs[1..]; var n := KeyedPrefix(tail); var o := objects[IdOf(vs[0]).key := vs[0]];
      && (r.1.None? <==> n == |tail|)
      && (r.1.Some? ==> r.1.value == ErrorFor(IdOf(tail[n])))
      && r.0.Keys == o.Keys + KeysOf(tail[..n])
      && (forall k :: k in o && k !in KeysOf(tail[..n]) ==> k in r.0 && r.0[k] == o[k])
    ensures r.1.None? <==> KeyedPrefix(vs) == |vs|
    ensures r.1.Some? ==> r.1.value == ErrorFor(IdOf(vs[KeyedPrefix(vs)]))
    ensures r.0.Keys == objects.Keys + KeysOf(vs[..KeyedPrefix(vs)])
    ensures forall k :: k in objects && k !in KeysOf(vs[..KeyedPrefix(vs)]) ==> k in r.0 && r.0[k] == objects[k]
  {
    var tail := vs[1..];
    var n := KeyedPrefix(tail);
    var prefix := vs[..n + 1];
    assert KeyedPrefix(vs) == n + 1;
    assert prefix[1..] == tail[..n];
    KeysOfCons(prefix);
  }

  /** The inductive step of `UpsertEach` for its last-writer-wins clause. */
  lemma UpsertStepLast(objects: Collection, vs: seq<Record>, r: (Collection, Option<Error>))
    requires |vs| > 0 && IdOf(vs[0]).Found?
    requires var tail := vs[1..]; var n := KeyedPrefix(tail); var o := objects[IdOf(vs[0]).key := vs[0]];
      && (forall k :: k in o && k !in KeysOf(tail[..n]) ==> k in r.0 && r.0[k] == o[k])
      && (forall i :: 0 <= i < n && LastWithItsId(tail[..n], i) ==> IdOf(tail[i]).key in r.0 && r.0[IdOf(tail[i]).key] == tail[i])
    ensures forall i :: 0 <= i < KeyedPrefix(vs) && LastWithItsId(vs[..KeyedPrefix(vs)], i) ==>
              IdOf(vs[i]).key in r.0 && r.0[IdOf(vs[i]).key] == vs[i]
  {
    var tail := vs[1..];
    var n := KeyedPrefix(tail);
    var prefix := vs[..n + 1];
    assert KeyedPrefix(vs) == n + 1;
    assert prefix[1..] == tail[..n];
    forall i | 0 <= i < n + 1 && LastWithItsId(prefix, i)
      ensures IdOf(vs[i]).key in r.0 && r.0[IdOf(vs[i]).key] == vs[i]
    {
      LastWithItsIdCons(prefix, i);
      if i > 0 {
        assert tail[i - 1] == vs[i];
      }
    }
  }

  /** `save_bulk`: creates collection `c` if absent, then upserts the values
      in order until the first one whose id is refused, which raises. Nothing
      is rolled back, and nothing after the refused value is written. */
  function SaveBulk(s: Store, c: string, vs: seq<Record>): (r: Outcome)
    ensures r.store.Keys == s.Keys + {c}
    ensures forall c' :: c' in s && c' != c ==> r.store[c'] == s[c']
    ensures r.Ok? <==> forall i :: 0 <= i < |vs| ==> IdOf(vs[i]).Found?
    ensures r.Raised? ==> r.error == ErrorFor(IdOf(vs[KeyedPrefix(vs)]))
    ensures r.store[c].Keys == Objects(s, c).Keys + KeysOf(vs[..KeyedPrefix(vs)])
    ensures forall k :: k in Objects(s, c) && k !in KeysOf(vs[..KeyedPrefix(vs)]) ==>
              r.store[c][k] == Objects(s, c)[k]
    ensures forall i :: 0 <= i < KeyedPrefix(vs) && LastWithItsId(vs[..KeyedPrefix(vs)], i) ==>
              r.store[c][IdOf(vs[i]).key] == vs[i]
  {
    var created := WithCollection(s, c);
    var (objects, error) := UpsertEach(created[c], vs);
    match error
    case None => Ok(created[c := objects])
    case Some(e) => Raised(created[c := objects], e)
  }
}
