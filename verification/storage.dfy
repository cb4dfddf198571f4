/**
 * The keyed collection store of `src/utils/localStorage.ts`. Each key holds a list of
 * records with an `id`; the browser store and its JSON encoding are abstracted to a map
 * from keys to lists, so a list reads back exactly as it was written.
 */
module Storage {

  import opened Wrappers
  import opened Seqs

  /** A stored record: its `id` and its other fields by name. */
  datatype Item = Item(id: string, fields: map<string, string>)

  /** A `Partial<T>`: an optional new id and the fields to overwrite. */
  datatype ItemPatch = ItemPatch(id: Option<string>, fields: map<string, string>)

  /** `{ ...item, ...updates }`. */
  function MergeItem(item: Item, updates: ItemPatch): (r: Item)
    ensures r.id == Override(updates.id, item.id)
    ensures r.fields.Keys == item.fields.Keys + updates.fields.Keys
    ensures forall f :: f in updates.fields ==> r.fields[f] == updates.fields[f]
    ensures forall f :: f in item.fields && f !in updates.fields ==> r.fields[f] == item.fields[f]
  {
    Item(Override(updates.id, item.id), item.fields + updates.fields)
  }

  /** Position of the first record with this id, or -1 (`findIndex`). */
  function IndexOfId(items: seq<Item>, id: string): (k: int)
    ensures -1 <= k < |items|
    ensures k == -1 <==> forall i :: 0 <= i < |items| ==> items[i].id != id
    ensures k >= 0 ==> items[k].id == id && forall i :: 0 <= i < k ==> items[i].id != id
  {
    FirstIndex(items, (x: Item) => x.id == id)
  }

  /** The list `update` writes back: the first record with this id merged, all else in place. */
  function UpdateFirst(items: seq<Item>, id: string, updates: ItemPatch): (r: seq<Item>)
    ensures |r| == |items|
    ensures IndexOfId(items, id) == -1 ==> r == items
    ensures var k := IndexOfId(items, id);
      k >= 0 ==>
        && r[k] == MergeItem(items[k], updates)
        && forall i :: 0 <= i < |items| && i != k ==> r[i] == items[i]
  {
    var k := IndexOfId(items, id);
    if k == -1 then items else items[k := MergeItem(items[k], updates)]
  }

  /** Only the first match is merged: a later record with the same id stays as it was. */
  lemma UpdateFirstOnly(items: seq<Item>, id: string, updates: ItemPatch, j: nat)
    requires j < |items| && items[j].id == id && j != IndexOfId(items, id)
    ensures UpdateFirst(items, id, updates)[j] == items[j]
    ensures IndexOfId(items, id) < j
  {
  }

  /** The list `remove` writes back: every record with this id gone, the rest in order. */
  function RemoveId(items: seq<Item>, id: string): (r: seq<Item>)
    ensures forall i :: 0 <= i < |r| ==> r[i].id != id
    ensures forall x: Item :: x.id != id ==> multiset(r)[x] == multiset(items)[x]
    ensures IsSubsequence(r, items)
  {
    FilterIsSubsequence(items, (x: Item) => x.id != id);
    FilterMultiset(items, (x: Item) => x.id != id);
    Filter(items, (x: Item) => x.id != id)
  }

  /** Removing an id that no record has leaves an equal list. */
  lemma RemoveIdAbsent(items: seq<Item>, id: string)
    requires IndexOfId(items, id) == -1
    ensures RemoveId(items, id) == items
  {
    FilterAll(items, (x: Item) => x.id != id);
  }

  /** Removing twice is removing once. */
  lemma RemoveIdIdempotent(items: seq<Item>, id: string)
    ensures RemoveId(RemoveId(items, id), id) == RemoveId(items, id)
  {
    RemoveIdAbsent(RemoveId(items, id), id);
  }

  /** Removing the id of a record just added removes that record along with the older ones. */
  lemma RemoveAfterAdd(items: seq<Item>, item: Item)
    ensures RemoveId(items + [item], item.id) == RemoveId(items, item.id)
  {
    FilterAppend(items, [item], (x: Item) => x.id != item.id);
  }

  /** The browser store, reduced to the collections it holds under each key. */
  class Store {
    var data: map<string, seq<Item>>

    constructor()
      ensures data == map[]
    {
      data := map[];
    }

    /** `storage.get(key)`: the stored list, or the empty list for a key never written. */
    function Get(key: string): (r: seq<Item>)
      reads this
      ensures key !in data ==> r == []
      ensures key in data ==> r == data[key]
    {
      if key in data then data[key] else []
    }

    /** `storage.set(key, items)`: a later `get` of this key returns `items`. */
    method Set(key: string, items: seq<Item>)
      modifies this
      ensures data == old(data)[key := items]
      ensures Get(key) == items
      ensures forall k :: k != key ==> Get(k) == old(Get(k))
    {
      data := data[key := items];
    }

    /** `storage.add(key, item)`: fetch, push, write back. */
    method Add(key: string, item: Item)
      modifies this
      ensures data == old(data)[key := old(Get(key)) + [item]]
      ensures Get(key) == old(Get(key)) + [item]
      ensures forall k :: k != key ==> Get(k) == old(Get(k))
    {
      var items := Get(key);
      items := items + [item];
      Set(key, items);
    }

    /** `storage.update(key, id, updates)`: writes back only when some record has this id. */
    method Update(key: string, id: string, updates: ItemPatch)
      modifies this
      ensures IndexOfId(old(Get(key)), id) == -1 ==> data == old(data)
      ensures IndexOfId(old(Get(key)), id) != -1 ==>
        data == old(data)[key := UpdateFirst(old(Get(key)), id, updates)]
      ensures forall k :: k != key ==> Get(k) == old(Get(k))
    {
      var items := Get(key);
      var index := IndexOfId(items, id);
      if index != -1 {
        items := items[index := MergeItem(items[index], updates)];
        Set(key, items);
      }
    }

    /** `storage.remove(key, id)`: always writes back the filtered list. */
    method Remove(key: string, id: string)
      modifies this
      ensures data == old(data)[key := RemoveId(old(Get(key)), id)]
      ensures forall k :: k != key ==> Get(k) == old(Get(k))
    {
      var items := Get(key);
      var filtered := RemoveId(items, id);
      Set(key, filtered);
    }
  }
}
