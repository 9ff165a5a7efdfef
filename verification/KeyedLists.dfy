/** Lists that are updated by prepending the new entry and filtering out the old one
    by its id: they behave as maps from keys. */
module KeyedLists {
  import opened Wrappers

  datatype Entry<K, V> = Entry(id: nat, key: K, value: V)

  function Find<K(==), V>(entries: seq<Entry<K, V>>, key: K): Option<Entry<K, V>> {
    if entries == [] then None
    else if entries[0].key == key then Some(entries[0])
    else Find(entries[1..], key)
  }

  function Without<K, V>(entries: seq<Entry<K, V>>, id: nat): seq<Entry<K, V>> {
    if entries == [] then []
    else if entries[0].id == id then Without(entries[1..], id)
    else [entries[0]] + Without(entries[1..], id)
  }

  /** The existing entry keeps its id; `freshId` is used when there is none. */
  function Put<K(==), V>(entries: seq<Entry<K, V>>, key: K, value: V, freshId: nat): seq<Entry<K, V>> {
    var id := match Find(entries, key) { case Some(e) => e.id case None => freshId };
    [Entry(id, key, value)] + Without(entries, id)
  }

  /** No two entries share an id or a key. */
  ghost predicate Distinct<K, V>(entries: seq<Entry<K, V>>) {
    entries == []
    || (&& (forall k :: 1 <= k < |entries| ==> entries[k].id != entries[0].id && entries[k].key != entries[0].key)
        && Distinct(entries[1..]))
  }

  ghost predicate IdsBelow<K, V>(entries: seq<Entry<K, V>>, bound: nat) {
    forall k :: 0 <= k < |entries| ==> entries[k].id < bound
  }

  lemma {:induction false} InWithout<K, V>(entries: seq<Entry<K, V>>, id: nat, e: Entry<K, V>)
    ensures e in Without(entries, id) <==> e in entries && e.id != id
  {
    if entries != [] {
      InWithout(entries[1..], id, e);
      assert e in entries <==> e == entries[0] || e in entries[1..];
    }
  }

  lemma PrependDistinct<K, V>(e: Entry<K, V>, entries: seq<Entry<K, V>>)
    requires Distinct(entries)
    requires forall k :: 0 <= k < |entries| ==> entries[k].id != e.id && entries[k].key != e.key
    ensures Distinct([e] + entries)
  {
    assert ([e] + entries)[1..] == entries;
  }

  lemma {:induction false} WithoutDistinct<K, V>(entries: seq<Entry<K, V>>, id: nat)
    requires Distinct(entries)
    ensures Distinct(Without(entries, id))
  {
    if entries != [] {
      WithoutDistinct(entries[1..], id);
      var rest := Without(entries[1..], id);
      forall k | 0 <= k < |rest|
        ensures rest[k].id != entries[0].id && rest[k].key != entries[0].key
      {
        InWithout(entries[1..], id, rest[k]);
      }
      PrependDistinct(entries[0], rest);
    }
  }

  /** `find` yields an entry with the key, if there is one. */
  lemma {:induction false} FindIs<K, V>(entries: seq<Entry<K, V>>, key: K)
    ensures match Find(entries, key)
      case Some(e) => e in entries && e.key == key
      case None => forall e :: e in entries ==> e.key != key
  {
    if entries != [] {
      FindIs(entries[1..], key);
    }
  }

  lemma {:induction false} OnlyOne<K, V>(entries: seq<Entry<K, V>>, d: Entry<K, V>, e: Entry<K, V>)
    requires Distinct(entries) && d in entries && e in entries
    requires d.id == e.id || d.key == e.key
    ensures d == e
  {
    if d != entries[0] && e != entries[0] {
      OnlyOne(entries[1..], d, e);
    }
  }

  lemma {:induction false} FindWithout<K, V>(entries: seq<Entry<K, V>>, id: nat, key: K)
    requires forall k :: 0 <= k < |entries| && entries[k].id == id ==> entries[k].key != key
    ensures Find(Without(entries, id), key) == Find(entries, key)
  {
    if entries != [] {
      FindWithout(entries[1..], id, key);
      if entries[0].id != id {
        assert Without(entries, id)[1..] == Without(entries[1..], id);
      }
    }
  }

  /** Prepending and filtering by id is a keyed update: the key has the new value,
      every other key what it had, and ids and keys stay unique. */
  lemma PutIsAKeyedUpdate<K, V>(entries: seq<Entry<K, V>>, key: K, value: V, freshId: nat, key': K)
    requires Distinct(entries) && IdsBelow(entries, freshId)
    ensures var after := Put(entries, key, value, freshId);
      && Distinct(after) && IdsBelow(after, freshId + 1)
      && after[0].key == key && after[0].value == value
      && (Find(entries, key).Some? ==> after[0].id == Find(entries, key).value.id)
      && Find(after, key') == if key' == key then Some(after[0]) else Find(entries, key')
  {
    var after := Put(entries, key, value, freshId);
    var id := after[0].id;
    var rest := Without(entries, id);
    assert after[1..] == rest;
    forall k | 0 <= k < |rest|
      ensures rest[k].id != id && rest[k].key != key && rest[k].id < freshId
    {
      KeptByPut(entries, key, value, freshId, rest[k]);
    }
    WithoutDistinct(entries, id);
    PrependDistinct(after[0], rest);
    FindIs(entries, key);
    if key' != key {
      OtherKeys(entries, key, value, freshId, key');
    }
  }

  lemma KeptByPut<K, V>(entries: seq<Entry<K, V>>, key: K, value: V, freshId: nat, e: Entry<K, V>)
    requires Distinct(entries) && IdsBelow(entries, freshId)
    ensures var id := Put(entries, key, value, freshId)[0].id;
      && (e in entries ==> (e.id == id <==> e.key == key))
      && (e in Without(entries, id) <==> e in entries && e.key != key)
      && id <= freshId
  {
    FindIs(entries, key);
    InWithout(entries, Put(entries, key, value, freshId)[0].id, e);
    if e in entries && Find(entries, key).Some? {
      var existing := Find(entries, key).value;
      if e.id == existing.id || e.key == existing.key {
        OnlyOne(entries, e, existing);
      }
    }
  }

  lemma OtherKeys<K, V>(entries: seq<Entry<K, V>>, key: K, value: V, freshId: nat, key': K)
    requires Distinct(entries) && IdsBelow(entries, freshId) && key' != key
    ensures Find(Without(entries, Put(entries, key, value, freshId)[0].id), key') == Find(entries, key')
  {
    var id := Put(entries, key, value, freshId)[0].id;
    forall k | 0 <= k < |entries| && entries[k].id == id
      ensures entries[k].key != key'
    {
      KeptByPut(entries, key, value, freshId, entries[k]);
    }
    FindWithout(entries, id, key');
  }

  /** Changing values in place keeps ids and keys unique. */
  lemma {:induction false} SameKeysDistinct<K, V>(entries: seq<Entry<K, V>>, after: seq<Entry<K, V>>)
    requires Distinct(entries) && |after| == |entries|
    requires forall k :: 0 <= k < |entries| ==> after[k].id == entries[k].id && after[k].key == entries[k].key
    ensures Distinct(after)
  {
    if entries != [] {
      SameKeysDistinct(entries[1..], after[1..]);
    }
  }
}
