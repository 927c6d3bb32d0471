/**
 * The visible item list of the upload manager and the id-keyed patch
 * (`{...it, ...patch}`) through which every update reaches it.
 */
module UploadItems {
  import opened Common

  datatype Status = Idle | Uploading | Done | Errored

  /** One dropped file as the list shows it (the file handle is reduced to its name and size). */
  datatype Item = Item(
    id: string,
    name: string,
    size: nat,
    progress: nat,
    status: Status,
    error: Option<string>,
    objectName: Option<string>,
    gsPath: Option<string>,
    bytesLoaded: nat)

  /**
   * A `Partial<UploadItem>`: each field is either left alone (None) or given
   * a value (Some); the optional fields can also be set to null.
   */
  datatype Patch = Patch(
    status: Option<Status>,
    error: Option<Option<string>>,
    progress: Option<nat>,
    objectName: Option<Option<string>>,
    gsPath: Option<Option<string>>,
    bytesLoaded: Option<nat>)

  const EmptyPatch := Patch(None, None, None, None, None, None)

  function Pick<T>(newer: Option<T>, older: T): T {
    if newer.Some? then newer.value else older
  }

  function PickOpt<T>(newer: Option<T>, older: Option<T>): Option<T> {
    if newer.Some? then newer else older
  }

  /** `{...it, ...patch}`. */
  function Apply(it: Item, p: Patch): Item {
    Item(it.id, it.name, it.size,
         Pick(p.progress, it.progress),
         Pick(p.status, it.status),
         Pick(p.error, it.error),
         Pick(p.objectName, it.objectName),
         Pick(p.gsPath, it.gsPath),
         Pick(p.bytesLoaded, it.bytesLoaded))
  }

  /** The single patch that has the effect of `p` followed by `q`. */
  function Merge(p: Patch, q: Patch): Patch {
    Patch(PickOpt(q.status, p.status), PickOpt(q.error, p.error), PickOpt(q.progress, p.progress),
          PickOpt(q.objectName, p.objectName), PickOpt(q.gsPath, p.gsPath),
          PickOpt(q.bytesLoaded, p.bytesLoaded))
  }

  /** `setItems(s => s.map(it => it.id === id ? {...it, ...patch} : it))`. */
  function UpdateItem(items: seq<Item>, id: string, p: Patch): seq<Item> {
    seq(|items|, i requires 0 <= i < |items| =>
      if items[i].id == id then Apply(items[i], p) else items[i])
  }

  predicate HasId(items: seq<Item>, id: string) {
    exists i :: 0 <= i < |items| && items[i].id == id
  }

  /**
   * A patch keeps the list's length, order and ids, changes every item with
   * the matching id and no other, and leaves id, name and size of all items alone.
   */
  lemma UpdateItemFrame(items: seq<Item>, id: string, p: Patch)
    ensures |UpdateItem(items, id, p)| == |items|
    ensures forall i :: 0 <= i < |items| ==>
              var r := UpdateItem(items, id, p)[i];
              r.id == items[i].id && r.name == items[i].name && r.size == items[i].size
              && (items[i].id != id ==> r == items[i])
              && (items[i].id == id ==> r == Apply(items[i], p))
  {
  }

  /** Patching an id that is not in the list changes nothing. */
  lemma UpdateItemAbsent(items: seq<Item>, id: string, p: Patch)
    requires !HasId(items, id)
    ensures UpdateItem(items, id, p) == items
  {
    var r := UpdateItem(items, id, p);
    assert forall i :: 0 <= i < |items| ==> r[i] == items[i];
  }

  /** The empty patch changes nothing. */
  lemma UpdateItemEmpty(items: seq<Item>, id: string)
    ensures UpdateItem(items, id, EmptyPatch) == items
  {
    var r := UpdateItem(items, id, EmptyPatch);
    assert forall i :: 0 <= i < |items| ==> r[i] == items[i];
  }

  /** Two patches of the same id in a row are one merged patch. */
  lemma UpdateItemTwice(items: seq<Item>, id: string, p: Patch, q: Patch)
    ensures UpdateItem(UpdateItem(items, id, p), id, q) == UpdateItem(items, id, Merge(p, q))
  {
    var r1 := UpdateItem(UpdateItem(items, id, p), id, q);
    var r2 := UpdateItem(items, id, Merge(p, q));
    assert |r1| == |r2|;
    forall i | 0 <= i < |items| ensures r1[i] == r2[i] {
      if items[i].id == id {
        assert UpdateItem(items, id, p)[i] == Apply(items[i], p);
      }
    }
  }

  /** Patches of different ids do not interfere: they can be applied in either order. */
  lemma UpdateItemCommutes(items: seq<Item>, a: string, p: Patch, b: string, q: Patch)
    requires a != b
    ensures UpdateItem(UpdateItem(items, a, p), b, q) == UpdateItem(UpdateItem(items, b, q), a, p)
  {
    var r1 := UpdateItem(UpdateItem(items, a, p), b, q);
    var r2 := UpdateItem(UpdateItem(items, b, q), a, p);
    assert |r1| == |r2|;
    forall i | 0 <= i < |items| ensures r1[i] == r2[i] {
      assert UpdateItem(items, a, p)[i].id == items[i].id;
      assert UpdateItem(items, b, q)[i].id == items[i].id;
    }
  }

  /** `items.find(x => x.id === id)`: the first item with that id. */
  function FindById(items: seq<Item>, id: string): (r: Option<Item>)
    decreases |items|
  {
    if items == [] then None
    else if items[0].id == id then Some(items[0])
    else FindById(items[1..], id)
  }

  /** The search finds an item iff one has the id, and what it finds is the first such item. */
  lemma {:induction false} FindByIdSpec(items: seq<Item>, id: string)
    ensures FindById(items, id).None? <==> !HasId(items, id)
    ensures FindById(items, id).Some? ==>
              (exists i :: 0 <= i < |items| && items[i] == FindById(items, id).value && items[i].id == id
                 && forall j :: 0 <= j < i ==> items[j].id != id)
    decreases |items|
  {
    if items != [] && items[0].id != id {
      FindByIdSpec(items[1..], id);
      if HasId(items, id) {
        var i :| 0 <= i < |items| && items[i].id == id;
        assert items[1..][i - 1].id == id;
      }
      if FindById(items, id).Some? {
        var i :| 0 <= i < |items[1..]| && items[1..][i] == FindById(items, id).value && items[1..][i].id == id
               && forall j :: 0 <= j < i ==> items[1..][j].id != id;
        assert items[i + 1] == items[1..][i];
        forall j | 0 <= j < i + 1 ensures items[j].id != id {
          if j > 0 { assert items[j] == items[1..][j - 1]; }
        }
      }
    } else if items != [] {
      assert items[0] == FindById(items, id).value;
    }
  }

  /** `s.filter(it => it.id !== id)`. */
  function RemoveById(items: seq<Item>, id: string): seq<Item>
    decreases |items|
  {
    if items == [] then []
    else if items[0].id == id then RemoveById(items[1..], id)
    else [items[0]] + RemoveById(items[1..], id)
  }

  /** Removal keeps exactly the items with another id, and never grows the list. */
  lemma {:induction false} RemoveByIdSpec(items: seq<Item>, id: string)
    ensures forall x :: x in RemoveById(items, id) <==> x in items && x.id != id
    ensures |RemoveById(items, id)| <= |items|
    ensures !HasId(RemoveById(items, id), id)
    decreases |items|
  {
    if items != [] {
      RemoveByIdSpec(items[1..], id);
      var r := RemoveById(items, id);
      forall x ensures x in r <==> x in items && x.id != id {
        assert x in items <==> x == items[0] || x in items[1..];
      }
      forall i | 0 <= i < |r| ensures r[i].id != id {
        assert r[i] in r;
      }
    }
  }

  /** Removing an id that is not in the list changes nothing. */
  lemma {:induction false} RemoveByIdAbsent(items: seq<Item>, id: string)
    requires !HasId(items, id)
    ensures RemoveById(items, id) == items
    decreases |items|
  {
    if items != [] {
      forall i | 0 <= i < |items[1..]| ensures items[1..][i].id != id {
        assert items[1..][i] == items[i + 1];
      }
      RemoveByIdAbsent(items[1..], id);
      assert items[0].id != id;
      assert items == [items[0]] + items[1..];
    }
  }
}
