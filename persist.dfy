/** The persistence steps of the slot service: saveSlot, createListSlot, deleteSlot and
    deleteListSlots over the slot table, and the value each of them leaves in the table.
    The listener notifications that accompany each step are not part of this model. */
module Persist {
  import opened SlotTypes
  import opened Store

  /** The slot table as a value: its rows and the next key it will hand out. */
  datatype Table = Table(rows: seq<Slot>, nextId: int)

  /** The slots of `list`, keyed in order from `firstId` on, as creating them one after
      the other stores them. */
  function Numbered(list: seq<Slot>, firstId: int): (r: seq<Slot>)
    ensures |r| == |list|
    ensures forall i :: 0 <= i < |list| ==> r[i] == list[i].(id := firstId + i)
  {
    if list == [] then [] else [list[0].(id := firstId)] + Numbered(list[1..], firstId + 1)
  }

  /** Keying one more slot appends it under the next key. */
  lemma NumberedSnoc(list: seq<Slot>, firstId: int, i: int)
    requires 0 <= i < |list|
    ensures Numbered(list[..i + 1], firstId) == Numbered(list[..i], firstId) + [list[i].(id := firstId + i)]
  {
    var a := Numbered(list[..i + 1], firstId);
    var b := Numbered(list[..i], firstId) + [list[i].(id := firstId + i)];
    assert |a| == |b|;
    forall k | 0 <= k < |a| ensures a[k] == b[k] {
      assert list[..i + 1][k] == list[k];
      if k < i {
        assert list[..i][k] == list[k];
      }
    }
  }

  /** One more creation extends both the keyed list and the rows by the same slot. */
  lemma CreatedSnoc(rows0: seq<Slot>, list: seq<Slot>, firstId: int, i: int)
    requires 0 <= i < |list|
    ensures rows0 + Numbered(list[..i], firstId) + [list[i].(id := firstId + i)]
         == rows0 + Numbered(list[..i + 1], firstId)
    ensures Numbered(list[..i], firstId) + [list[i].(id := firstId + i)] == Numbered(list[..i + 1], firstId)
  {
    NumberedSnoc(list, firstId, i);
    assert rows0 + Numbered(list[..i], firstId) + [list[i].(id := firstId + i)]
        == rows0 + (Numbered(list[..i], firstId) + [list[i].(id := firstId + i)]);
  }

  /** The rows left after deleting, one after the other, the slots of `list`. */
  function WithoutIds(rows: seq<Slot>, list: seq<Slot>): (r: seq<Slot>)
    ensures forall x :: x in r <==> x in rows && forall s :: s in list ==> s.id != x.id
  {
    if list == [] then rows
    else
      var init := list[..|list| - 1];
      assert list == init + [list[|list| - 1]];
      WithoutId(WithoutIds(rows, init), list[|list| - 1].id)
  }

  /** The table after saveSlot: a slot without a key is created under the next key,
      a slot with one rewrites its row. */
  function Save(t: Table, slot: Slot): (r: Table)
    ensures slot.id == 0 ==> r.rows == t.rows + [slot.(id := t.nextId)] && r.nextId == t.nextId + 1
    ensures slot.id != 0 ==> r.rows == Replaced(t.rows, slot) && r.nextId == t.nextId
  {
    if slot.id == 0 then Table(t.rows + [slot.(id := t.nextId)], t.nextId + 1)
    else Table(Replaced(t.rows, slot), t.nextId)
  }

  /** The table after createListSlot: the rows there were, followed by the listed slots
      under consecutive keys from the counter on, and the counter past them. */
  function CreateAll(t: Table, list: seq<Slot>): (r: Table)
    ensures |r.rows| == |t.rows| + |list| && r.rows[..|t.rows|] == t.rows
    ensures forall i :: 0 <= i < |list| ==> r.rows[|t.rows| + i] == list[i].(id := t.nextId + i)
    ensures r.nextId == t.nextId + |list|
  {
    Table(t.rows + Numbered(list, t.nextId), t.nextId + |list|)
  }

  /** The table after deleteListSlots: exactly the rows whose key no listed slot has,
      under the same counter. */
  function DeleteAll(t: Table, list: seq<Slot>): (r: Table)
    ensures forall x :: x in r.rows <==> x in t.rows && forall s :: s in list ==> s.id != x.id
    ensures r.nextId == t.nextId
  {
    Table(WithoutIds(t.rows, list), t.nextId)
  }

  /** The table after deleteSlot: the row with the slot's key is gone. */
  function DeleteOne(t: Table, slot: Slot): (r: Table)
    ensures forall x :: x in r.rows <==> x in t.rows && x.id != slot.id
    ensures r.nextId == t.nextId
  {
    Table(WithoutId(t.rows, slot.id), t.nextId)
  }

  /** Creating slots keeps every row there was, adds exactly the listed slots under
      fresh keys, and advances the counter past them. */
  lemma CreateAllContents(t: Table, list: seq<Slot>)
    requires t.nextId > 0
    requires forall x :: x in t.rows ==> 0 < x.id < t.nextId
    ensures var r := CreateAll(t, list);
      && (forall x :: x in t.rows ==> x in r.rows)
      && (forall i :: 0 <= i < |list| ==> list[i].(id := t.nextId + i) in r.rows)
      && (forall x :: x in r.rows ==> 0 < x.id < r.nextId)
      && (forall x :: x in r.rows && x !in t.rows ==> t.nextId <= x.id)
  {
    CreateAllAdds(t, list);
    CreateAllKeys(t, list);
  }

  /** The listed slots are among the rows after creating them. */
  lemma {:induction false} CreateAllAdds(t: Table, list: seq<Slot>)
    ensures var r := CreateAll(t, list);
      && (forall x :: x in t.rows ==> x in r.rows)
      && (forall i :: 0 <= i < |list| ==> list[i].(id := t.nextId + i) in r.rows)
  {
    var r := CreateAll(t, list);
    var created := Numbered(list, t.nextId);
    forall i | 0 <= i < |list| ensures list[i].(id := t.nextId + i) in r.rows {
      assert r.rows[|t.rows| + i] == created[i];
    }
  }

  /** The rows created carry the keys from the old counter on, below the new one. */
  lemma {:induction false} CreateAllKeys(t: Table, list: seq<Slot>)
    requires t.nextId > 0
    requires forall x :: x in t.rows ==> 0 < x.id < t.nextId
    ensures var r := CreateAll(t, list);
      && (forall x :: x in r.rows ==> 0 < x.id < r.nextId)
      && (forall x :: x in r.rows && x !in t.rows ==> t.nextId <= x.id)
  {
    var r := CreateAll(t, list);
    var created := Numbered(list, t.nextId);
    assert r.rows == t.rows + created;
    forall x | x in r.rows && x !in t.rows ensures t.nextId <= x.id < r.nextId {
      assert x in created;
      var k :| 0 <= k < |created| && created[k] == x;
    }
  }

  /** saveSlot. */
  method SaveSlot(store: SlotStore, slot: Slot) returns (saved: Slot)
    requires store.Valid()
    modifies store
    ensures store.Valid()
    ensures Table(store.rows, store.nextId) == Save(Table(old(store.rows), old(store.nextId)), slot)
    ensures saved == if slot.id == 0 then slot.(id := old(store.nextId)) else slot
  {
    if slot.id == 0 {
      saved := store.Create(slot);
    } else {
      store.Update(slot);
      saved := slot;
    }
  }

  /** createListSlot: creates the slots in list order and hands them back with their keys. */
  method CreateListSlot(store: SlotStore, listSlotToCreate: seq<Slot>) returns (created: seq<Slot>)
    requires store.Valid()
    modifies store
    ensures store.Valid()
    ensures Table(store.rows, store.nextId) == CreateAll(Table(old(store.rows), old(store.nextId)), listSlotToCreate)
    ensures created == Numbered(listSlotToCreate, old(store.nextId))
  {
    ghost var rows0, id0 := store.rows, store.nextId;
    created := [];
    var i := 0;
    while i < |listSlotToCreate|
      invariant 0 <= i <= |listSlotToCreate|
      invariant store.Valid()
      invariant created == Numbered(listSlotToCreate[..i], id0)
      invariant store.rows == rows0 + created
      invariant store.nextId == id0 + i
    {
      var slotCreated := store.Create(listSlotToCreate[i]);
      assert slotCreated == listSlotToCreate[i].(id := id0 + i);
      CreatedSnoc(rows0, listSlotToCreate, id0, i);
      created := created + [slotCreated];
      assert store.rows == rows0 + created;
      i := i + 1;
    }
    assert listSlotToCreate[..i] == listSlotToCreate;
  }

  /** deleteSlot. */
  method DeleteSlot(store: SlotStore, slot: Slot)
    requires store.Valid()
    modifies store
    ensures store.Valid()
    ensures Table(store.rows, store.nextId) == DeleteOne(Table(old(store.rows), old(store.nextId)), slot)
  {
    store.Delete(slot.id);
  }

  /** deleteListSlots: deletes the slots one after the other. */
  method DeleteListSlots(store: SlotStore, listSlotToDelete: seq<Slot>)
    requires store.Valid()
    modifies store
    ensures store.Valid()
    ensures Table(store.rows, store.nextId) == DeleteAll(Table(old(store.rows), old(store.nextId)), listSlotToDelete)
  {
    var i := 0;
    while i < |listSlotToDelete|
      invariant 0 <= i <= |listSlotToDelete|
      invariant store.Valid()
      invariant store.rows == WithoutIds(old(store.rows), listSlotToDelete[..i])
      invariant store.nextId == old(store.nextId)
    {
      assert listSlotToDelete[..i + 1][..i] == listSlotToDelete[..i];
      DeleteSlot(store, listSlotToDelete[i]);
      i := i + 1;
    }
    assert listSlotToDelete[..i] == listSlotToDelete;
  }

  /** The keys of a table as the store keeps them: the counter is positive, every row's
      key lies below it, and no two different rows share a key. */
  predicate KeysOk(t: Table)
  {
    && t.nextId > 0
    && (forall x :: x in t.rows ==> 0 < x.id < t.nextId)
    && (forall x, y :: x in t.rows && y in t.rows && x.id == y.id ==> x == y)
  }

  /** The slot as saveSlot stores it: under the next key when it has none. */
  function SavedAs(t: Table, slot: Slot): (r: Slot)
    ensures r.(id := slot.id) == slot
    ensures slot.id != 0 ==> r == slot
  {
    if slot.id == 0 then slot.(id := t.nextId) else slot
  }

  /** saveSlot keeps the keys sound, stores the slot, keeps every row with another key
      and adds nothing else; a slot with a key must have a row to rewrite. */
  lemma {:induction false} SaveOutcome(t: Table, slot: Slot)
    requires KeysOk(t)
    requires slot.id != 0 ==> exists x :: x in t.rows && x.id == slot.id
    ensures KeysOk(Save(t, slot))
    ensures SavedAs(t, slot) in Save(t, slot).rows
    ensures forall x :: x in t.rows && x.id != slot.id ==> x in Save(t, slot).rows
    ensures forall x :: x in Save(t, slot).rows ==> x == SavedAs(t, slot) || (x in t.rows && x.id != slot.id)
  {
    var r := Save(t, slot);
    if slot.id != 0 {
      ReplacedMembers(t.rows, slot);
    } else {
      assert forall x :: x in r.rows ==> x == SavedAs(t, slot) || x in t.rows;
    }
  }

  /** Deleting rows keeps the keys sound. */
  lemma DeleteAllKeysOk(t: Table, list: seq<Slot>)
    requires KeysOk(t)
    ensures KeysOk(DeleteAll(t, list))
  {
  }

  /** createListSlot keeps the keys sound: the created rows take the keys from the old
      counter on, one each. */
  lemma {:induction false} CreateAllKeysOk(t: Table, list: seq<Slot>)
    requires KeysOk(t)
    ensures KeysOk(CreateAll(t, list))
  {
    var r := CreateAll(t, list);
    var created := Numbered(list, t.nextId);
    CreateAllKeys(t, list);
    forall x, y | x in r.rows && y in r.rows && x.id == y.id ensures x == y {
      if x !in t.rows && y !in t.rows {
        assert x in created && y in created;
        var i :| 0 <= i < |created| && created[i] == x;
        var j :| 0 <= j < |created| && created[j] == y;
      }
    }
  }
}
