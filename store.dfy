/** The persisted slots of all forms (SlotHome) as an in-memory table of rows.
    Primary keys come from a counter; the table's own SQL is not part of this model. */
module Store {
  import opened SlotTypes

  /** The rows left after deleting the one(s) with the given id. */
  function WithoutId(rows: seq<Slot>, id: int): (r: seq<Slot>)
    ensures forall x :: x in r <==> x in rows && x.id != id
    ensures |r| <= |rows|
  {
    if rows == [] then []
    else (if rows[0].id == id then [] else [rows[0]]) + WithoutId(rows[1..], id)
  }

  /** The rows after rewriting the one(s) with the slot's id. */
  function Replaced(rows: seq<Slot>, slot: Slot): (r: seq<Slot>)
    ensures |r| == |rows|
    ensures forall i :: 0 <= i < |rows| ==> r[i] == if rows[i].id == slot.id then slot else rows[i]
  {
    if rows == [] then [] else [if rows[0].id == slot.id then slot else rows[0]] + Replaced(rows[1..], slot)
  }

  /** Rewriting the row of a slot keeps the other rows, adds nothing else, and puts the
      slot in when a row with its key was there. */
  lemma ReplacedMembers(rows: seq<Slot>, slot: Slot)
    ensures forall x :: x in Replaced(rows, slot) ==> x == slot || (x in rows && x.id != slot.id)
    ensures forall x :: x in rows && x.id != slot.id ==> x in Replaced(rows, slot)
    ensures (exists x :: x in rows && x.id == slot.id) ==> slot in Replaced(rows, slot)
  {
    var r := Replaced(rows, slot);
    forall x | x in r ensures x == slot || (x in rows && x.id != slot.id) {
      var i :| 0 <= i < |r| && r[i] == x;
    }
    forall x | x in rows && x.id != slot.id ensures x in r {
      var i :| 0 <= i < |rows| && rows[i] == x;
      assert r[i] == x;
    }
    if exists x :: x in rows && x.id == slot.id {
      var x :| x in rows && x.id == slot.id;
      var i :| 0 <= i < |rows| && rows[i] == x;
      assert r[i] == slot;
    }
  }

  /** The first row with the given id. */
  function FindSlot(rows: seq<Slot>, id: int): (r: Option<Slot>)
    ensures r.Some? ==> r.value in rows && r.value.id == id
    ensures r.None? <==> forall x :: x in rows ==> x.id != id
  {
    if rows == [] then None
    else if rows[0].id == id then Some(rows[0])
    else FindSlot(rows[1..], id)
  }

  class SlotStore {
    var rows: seq<Slot>
    var nextId: int

    /** Every row has a key below the counter, and no two different rows share a key. */
    ghost predicate Valid()
      reads this
    {
      && nextId > 0
      && (forall x :: x in rows ==> 0 < x.id < nextId)
      && (forall x, y :: x in rows && y in rows && x.id == y.id ==> x == y)
    }

    constructor ()
      ensures Valid() && rows == [] && nextId == 1
    {
      rows := [];
      nextId := 1;
    }

    /** SlotHome.findByPrimaryKey. */
    function FindById(id: int): (r: Option<Slot>)
      reads this
      requires Valid()
      ensures r.Some? <==> exists x :: x in rows && x.id == id
      ensures forall x :: x in rows && x.id == id ==> r == Some(x)
    {
      FindSlot(rows, id)
    }

    /** SlotHome.create: stores the slot under a fresh key and hands back the stored row. */
    method Create(slot: Slot) returns (created: Slot)
      requires Valid()
      modifies this
      ensures Valid()
      ensures created == slot.(id := old(nextId))
      ensures rows == old(rows) + [created]
      ensures nextId == old(nextId) + 1
    {
      created := slot.(id := nextId);
      rows := rows + [created];
      nextId := nextId + 1;
    }

    /** SlotHome.update: rewrites the row with the slot's key; no row, no change. */
    method Update(slot: Slot)
      requires Valid()
      modifies this
      ensures Valid()
      ensures rows == Replaced(old(rows), slot)
      ensures nextId == old(nextId)
    {
      var before := rows;
      rows := Replaced(rows, slot);
      forall x | x in rows ensures x == slot || (x in before && x.id != slot.id) {
        var i :| 0 <= i < |rows| && rows[i] == x;
      }
      forall x | x in rows && x.id == slot.id ensures x == slot {
        var i :| 0 <= i < |rows| && rows[i] == x;
      }
      forall x | x in rows ensures 0 < x.id < nextId {
        var i :| 0 <= i < |rows| && rows[i] == x;
        assert before[i] in before;
      }
    }

    /** SlotHome.delete. */
    method Delete(id: int)
      requires Valid()
      modifies this
      ensures Valid()
      ensures rows == WithoutId(old(rows), id)
      ensures nextId == old(nextId)
    {
      rows := WithoutId(rows, id);
    }
  }
}
