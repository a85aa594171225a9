/** What the edition of a slot guarantees about the table it leaves: which rows stay,
    which go, where the edited slot and the slots created or shifted around it end up. */
module EditingFacts {
  import opened SlotTypes
  import opened RuleLookup
  import opened Store
  import opened Materialise
  import opened Persist
  import opened Generate
  import opened Shifting
  import opened Editing

  /** A valid store is a table with sound keys. */
  lemma ValidStoreKeys(store: SlotStore)
    ensures store.Valid() <==> KeysOk(Table(store.rows, store.nextId))
  {
  }

  // ---------------------------------------------------------------------------------
  // updateSlotWithoutShift

  /** Without the shift, the edited slot keeps the rows it does not cover: every row of
      another key that it does not absorb stays, the edited slot is stored, every slot
      created after it is stored under a fresh key, and the keys stay sound. */
  lemma WithoutShiftOutcome(t: Table, weeks: seq<WeekDefinition>, rules: seq<ReservationRule>, slot: Slot)
    requires KeysOk(t)
    requires WithoutShiftDefined(t, weeks, rules, slot)
    ensures KeysOk(WithoutShiftTable(t, weeks, rules, slot))
    ensures forall x :: x in t.rows && x.id != slot.id && NotListed(Absorbed(t, slot), x.id) ==>
              x in WithoutShiftTable(t, weeks, rules, slot).rows
    ensures SavedAs(t, Reconciled(DeleteAll(t, Absorbed(t, slot)), slot)) in WithoutShiftTable(t, weeks, rules, slot).rows
    ensures forall s :: s in CreatedWithoutShift(DeleteAll(t, Absorbed(t, slot)), weeks, rules, slot) ==>
              exists x :: x in WithoutShiftTable(t, weeks, rules, slot).rows && x.id >= t.nextId && x.(id := s.id) == s
  {
    var t1 := DeleteAll(t, Absorbed(t, slot));
    DeleteAllKeysOk(t, Absorbed(t, slot));
    FilledOutcome(t1, weeks, rules, slot);
  }

  /** Without the shift, the rows the edited slot covers after its start are gone, apart
      from the edited slot's own row. */
  lemma WithoutShiftRemovesAbsorbed(t: Table, weeks: seq<WeekDefinition>, rules: seq<ReservationRule>, slot: Slot)
    requires KeysOk(t)
    requires WithoutShiftDefined(t, weeks, rules, slot)
    ensures forall a :: a in Absorbed(t, slot) && a.id != slot.id ==>
              NotListed(WithoutShiftTable(t, weeks, rules, slot).rows, a.id)
  {
    var t1 := DeleteAll(t, Absorbed(t, slot));
    DeleteAllKeysOk(t, Absorbed(t, slot));
    FilledOutcome(t1, weeks, rules, slot);
    AbsorbedKeys(t, slot);
  }

  /** The slots the edited slot absorbs carry keys of the table. */
  lemma {:induction false} AbsorbedKeys(t: Table, slot: Slot)
    requires forall x :: x in t.rows ==> x.id < t.nextId
    ensures forall a :: a in Absorbed(t, slot) ==> a.id < t.nextId
  {
    forall a | a in Absorbed(t, slot) ensures a.id < t.nextId {
      var y :| y in t.rows && y.idForm == slot.idForm && slot.startingDateTime + 1 <= y.startingDateTime
               && y.endingDateTime <= slot.endingDateTime && a == AddDateAndTimeToSlot(y);
    }
  }

  /** The second half of the edition without shift, from the table without the absorbed
      rows. */
  lemma {:induction false} FilledOutcome(t1: Table, weeks: seq<WeekDefinition>, rules: seq<ReservationRule>, slot: Slot)
    requires KeysOk(t1)
    requires FillDefined(t1, weeks, rules, slot)
    ensures KeysOk(Filled(t1, weeks, rules, slot))
    ensures forall x :: x in t1.rows && x.id != slot.id ==> x in Filled(t1, weeks, rules, slot).rows
    ensures forall x :: x in Filled(t1, weeks, rules, slot).rows ==>
              x.id >= t1.nextId || x == SavedAs(t1, Reconciled(t1, slot)) || (x in t1.rows && x.id != slot.id)
    ensures SavedAs(t1, Reconciled(t1, slot)) in Filled(t1, weeks, rules, slot).rows
    ensures forall s :: s in CreatedWithoutShift(t1, weeks, rules, slot) ==>
              exists x :: x in Filled(t1, weeks, rules, slot).rows && x.id >= t1.nextId && x.(id := s.id) == s
  {
    var saved := Reconciled(t1, slot);
    var t2 := Save(t1, saved);
    var created := CreatedWithoutShift(t1, weeks, rules, slot);
    SaveOutcome(t1, saved);
    CreateAllKeysOk(t2, created);
    CreateAllContents(t2, created);
    var r := CreateAll(t2, created);
    forall s | s in created
      ensures exists x :: x in r.rows && x.id >= t1.nextId && x.(id := s.id) == s
    {
      var i :| 0 <= i < |created| && created[i] == s;
      assert created[i].(id := t2.nextId + i) in r.rows;
    }
  }

  /** The slots created after the edited slot continue it: the first starts where the
      edited slot ends, each starts where the previous one ends and lasts a positive time.
      When there is a next start, it lies at or after the edited slot's end, nothing is
      created exactly when it is that end, and the created slot ends there; when the day is
      generated instead, the created slots end with the day. */
  lemma CreatedWithoutShiftTiles(t1: Table, weeks: seq<WeekDefinition>, rules: seq<ReservationRule>, slot: Slot)
    requires FillDefined(t1, weeks, rules, slot)
    requires DerivedFieldsAgree(slot) && WithinOneDay(slot)
    ensures var c := CreatedWithoutShift(t1, weeks, rules, slot);
      && (forall i :: 0 <= i < |c| ==> c[i].startingDateTime < c[i].endingDateTime)
      && (c != [] ==> c[0].startingDateTime == slot.endingDateTime)
      && (forall i :: 0 < i < |c| ==> c[i].startingDateTime == c[i - 1].endingDateTime)
    ensures var c := CreatedWithoutShift(t1, weeks, rules, slot);
      var next := NextStart(t1, weeks, slot);
      next.Some? ==>
        && slot.endingDateTime <= next.value
        && (c == [] <==> next.value == slot.endingDateTime)
        && (c != [] ==> c[|c| - 1].endingDateTime == next.value)
    ensures var c := CreatedWithoutShift(t1, weeks, rules, slot);
      GeneratesAfter(t1, weeks, slot) && c != [] ==>
        var date := DateOf(slot.endingDateTime);
        c[|c| - 1].endingDateTime == AtTime(date, DayEndTime(weeks, rules, date))
  {
    var next := NextStart(t1, weeks, slot);
    if next.Some? && AfterEdited(t1, slot) == [] {
      var workingDay := EditedWorkingDay(weeks, slot);
      var nextTimeSlots := TimeSlotsFrom(workingDay.value.timeSlots, slot.endingTime);
      var m := MinStartingTime(nextTimeSlots);
      assert slot.endingTime <= m;
      assert slot.endingDateTime == AtTime(slot.date, slot.endingTime);
    } else if next.None? && GeneratesAfter(t1, weeks, slot) {
      var date := DateOf(slot.endingDateTime);
      GeneratedSlotsTile(slot.idForm, slot.endingDateTime, DayMinDuration(weeks, rules, date),
                         AtTime(date, DayEndTime(weeks, rules, date)), DayCapacity(rules, date),
                         DayWorkingDay(weeks, date), DayTimeSlots(weeks, date));
      GeneratedSlotsLengths(slot.idForm, slot.endingDateTime, DayMinDuration(weeks, rules, date),
                            AtTime(date, DayEndTime(weeks, rules, date)), DayCapacity(rules, date),
                            DayWorkingDay(weeks, date), DayTimeSlots(weeks, date));
    }
  }

  // ---------------------------------------------------------------------------------
  // updateSlotWithShift

  /** Every slot of the list that has a key comes from a stored row with that key and
      that start. */
  predicate Stored(t: Table, list: seq<Slot>)
  {
    forall s :: s in list && s.id != 0 ==> exists y :: y in t.rows && y.id == s.id && y.startingDateTime == s.startingDateTime
  }

  /** In a chronological list of stored slots, two slots with the same key are the same
      slot: they come from the same row, so they start at the same time. */
  lemma StoredSameKey(t: Table, list: seq<Slot>, a: Slot, b: Slot)
    requires KeysOk(t) && Chronological(list) && Stored(t, list)
    requires a in list && b in list && a.id == b.id && a.id != 0
    ensures a == b
  {
    var ya :| ya in t.rows && ya.id == a.id && ya.startingDateTime == a.startingDateTime;
    var yb :| yb in t.rows && yb.id == b.id && yb.startingDateTime == b.startingDateTime;
    var i :| 0 <= i < |list| && list[i] == a;
    var j :| 0 <= j < |list| && list[j] == b;
    assert ya == yb;
  }

  /** The slots of the edited slot's day after it are chronological and stored. */
  lemma FollowingStored(t: Table, weeks: seq<WeekDefinition>, rules: seq<ReservationRule>, closingDays: seq<int>,
                        slot: Slot)
    requires ValidWeekDefinitions(weeks) && FormRowsWithinOneDay(t.rows, slot.idForm)
    ensures Chronological(FollowingSlots(t, weeks, rules, closingDays, slot))
    ensures Stored(t, FollowingSlots(t, weeks, rules, closingDays, slot))
  {
    PlanningOfOneDayProvenance(t.rows, slot.idForm, weeks, rules, closingDays, slot.date);
    SelectKeepsOrder(Planning(t.rows, slot.idForm, weeks, rules, closingDays, slot.date, slot.date), StartsAfter(slot));
  }

  /** The preparation of the shift keeps the keys sound, keeps every row that is not
      absorbed, and leaves no row for an absorbed slot. */
  lemma PreparedRows(t: Table, following: seq<Slot>, slot: Slot)
    requires KeysOk(t) && Chronological(following) && Stored(t, following)
    ensures KeysOk(Prepared(t, following, slot))
    ensures forall x :: x in t.rows && NotListed(Select(following, AbsorbedBy(slot)), x.id) ==>
              x in Prepared(t, following, slot).rows
    ensures forall a :: a in Select(following, AbsorbedBy(slot)) ==> NotListed(Prepared(t, following, slot).rows, a.id)
  {
    var absorbed := Select(following, AbsorbedBy(slot));
    var t1 := DeleteAll(t, absorbed);
    DeleteAllKeysOk(t, absorbed);
    CreateAllKeysOk(t1, Select(Kept(following, slot), UnsavedOnly));
    CreateAllKeys(t1, Select(Kept(following, slot), UnsavedOnly));
    forall a | a in absorbed ensures a.id < t.nextId {
      var y :| y in t.rows && y.id == a.id && y.startingDateTime == a.startingDateTime;
    }
  }

  /** What the shift needs of its slots: distinct keys, none of them zero, each with a row
      in the prepared table, and, for a new edited slot, none the key it will be saved
      under. */
  predicate ToShiftSound(setup: ShiftSetup, slot: Slot)
  {
    && DistinctIds(setup.toShift)
    && (forall s :: s in setup.toShift ==> s.id != 0 && exists x :: x in setup.prepared.rows && x.id == s.id)
    && (slot.id == 0 ==> NotListed(setup.toShift, setup.prepared.nextId))
  }

  /** The kept slots get distinct keys, below the counter of the prepared table: the
      persisted ones keep theirs, the others get the keys createListSlot handed out. */
  lemma SlotsToShiftKeys(t: Table, following: seq<Slot>, slot: Slot)
    requires KeysOk(t) && Chronological(following) && Stored(t, following)
    ensures var toShift := SlotsToShift(t, following, slot);
      && DistinctIds(toShift)
      && (forall s :: s in toShift ==> 0 < s.id < Prepared(t, following, slot).nextId)
  {
    var kept := Kept(following, slot);
    SelectKeepsOrder(following, NotAbsorbedBy(slot));
    forall s | s in kept ensures 0 <= s.id < t.nextId {
      if s.id != 0 {
        var y :| y in t.rows && y.id == s.id && y.startingDateTime == s.startingDateTime;
      }
    }
    forall i, j | 0 <= i < j < |kept| && kept[i].id != 0 ensures kept[i].id != kept[j].id {
      if kept[i].id == kept[j].id {
        StoredSameKey(t, following, kept[i], kept[j]);
      }
    }
    AssignIdsKeys(kept, t.nextId);
    var r := AssignIds(kept, t.nextId);
    forall s | s in r ensures 0 < s.id < Prepared(t, following, slot).nextId {
      var i :| 0 <= i < |r| && r[i] == s;
      assert kept[i] in kept;
    }
  }

  /** Every slot to shift has a row in the prepared table. */
  lemma SlotsToShiftStored(t: Table, following: seq<Slot>, slot: Slot)
    requires KeysOk(t) && Chronological(following) && Stored(t, following)
    ensures forall s :: s in SlotsToShift(t, following, slot) ==>
              exists x :: x in Prepared(t, following, slot).rows && x.id == s.id
  {
    var kept := Kept(following, slot);
    var r := AssignIds(kept, t.nextId);
    AssignIdsSameMultiset(kept, t.nextId);
    NewKeys(kept, t.nextId);
    forall i | 0 <= i < |r| ensures exists x :: x in Prepared(t, following, slot).rows && x.id == r[i].id {
      assert kept[i] in kept;
      if kept[i].id != 0 {
        KeptRowStays(t, following, slot, kept[i]);
      } else {
        assert r[i] in multiset(r);
        NewSlotCreated(t, following, slot, r[i]);
      }
    }
  }

  /** The row of a kept slot with a key survives the preparation. */
  lemma KeptRowStays(t: Table, following: seq<Slot>, slot: Slot, k: Slot)
    requires KeysOk(t) && Chronological(following) && Stored(t, following)
    requires k in Kept(following, slot) && k.id != 0
    ensures exists x :: x in Prepared(t, following, slot).rows && x.id == k.id
  {
    var absorbed := Select(following, AbsorbedBy(slot));
    var y :| y in t.rows && y.id == k.id && y.startingDateTime == k.startingDateTime;
    forall a | a in absorbed ensures a.id != y.id {
      if a.id == y.id {
        StoredSameKey(t, following, a, k);
      }
    }
    PreparedRows(t, following, slot);
  }

  /** A slot to shift that got its key from createListSlot is one of the created rows. */
  lemma NewSlotCreated(t: Table, following: seq<Slot>, slot: Slot, s: Slot)
    requires KeysOk(t) && Stored(t, following)
    requires s in Select(Kept(following, slot), PersistedOnly) + Numbered(Select(Kept(following, slot), UnsavedOnly), t.nextId)
    requires s.id >= t.nextId
    ensures s in Prepared(t, following, slot).rows
  {
    if s in Select(Kept(following, slot), PersistedOnly) {
      assert false;
    }
  }

  /** The setup updateSlotWithShift works out from a table with sound keys is one the
      shift can run on. */
  lemma SetupSound(t: Table, weeks: seq<WeekDefinition>, rules: seq<ReservationRule>, closingDays: seq<int>,
                   slot: Slot, previousEndingTime: int)
    requires KeysOk(t) && DayIsDefined(weeks, rules, slot.date) && FormRowsWithinOneDay(t.rows, slot.idForm)
    ensures KeysOk(SetupShift(t, weeks, rules, closingDays, slot, previousEndingTime).prepared)
    ensures ToShiftSound(SetupShift(t, weeks, rules, closingDays, slot, previousEndingTime), slot)
  {
    var following := FollowingSlots(t, weeks, rules, closingDays, slot);
    var setup := SetupShift(t, weeks, rules, closingDays, slot, previousEndingTime);
    assert setup.prepared == Prepared(t, following, slot) && setup.toShift == SlotsToShift(t, following, slot);
    FollowingStored(t, weeks, rules, closingDays, slot);
    PreparedSound(t, following, slot, setup);
  }

  /** A setup built on the prepared table and the slots to shift is one the shift can
      run on. */
  lemma PreparedSound(t: Table, following: seq<Slot>, slot: Slot, setup: ShiftSetup)
    requires KeysOk(t) && Chronological(following) && Stored(t, following)
    requires setup.prepared == Prepared(t, following, slot) && setup.toShift == SlotsToShift(t, following, slot)
    ensures KeysOk(setup.prepared) && ToShiftSound(setup, slot)
  {
    PreparedRows(t, following, slot);
    SlotsToShiftKeys(t, following, slot);
    SlotsToShiftStored(t, following, slot);
    var p := setup.prepared;
    assert forall s :: s in setup.toShift ==> s.id != 0 && exists x :: x in p.rows && x.id == s.id;
    assert NotListed(setup.toShift, p.nextId);
  }

  /** The table once the edited slot is saved and the slots shifted: the prepared rows
      of other keys that are not shifted stay, every shifted slot is stored, no row is left
      for a slot pushed past the end of the day, and the edited slot is stored unless one
      of the shifted slots had its key. */
  lemma ShiftedTableOutcome(setup: ShiftSetup, weeks: seq<WeekDefinition>, rules: seq<ReservationRule>, slot: Slot)
    requires SetupDefined(setup, weeks, rules, slot)
    requires forall s :: s in setup.toShift ==> Classifiable(weeks, rules, s.date)
    requires KeysOk(setup.prepared) && ToShiftSound(setup, slot)
    ensures var r := ShiftedTable(setup, weeks, rules, slot);
      && (forall x :: x in setup.prepared.rows && x.id != slot.id && NotListed(setup.toShift, x.id) ==> x in r.rows)
      && (forall s :: s in setup.toShift && ShiftStep(weeks, rules, s, setup.plan).Some? ==>
            ShiftStep(weeks, rules, s, setup.plan).value in r.rows)
      && (forall s :: s in setup.toShift && ShiftStep(weeks, rules, s, setup.plan).None? ==> NotListed(r.rows, s.id))
      && (slot.id == 0 || NotListed(setup.toShift, slot.id) ==>
            SavedAs(setup.prepared, Reconciled(setup.prepared, slot)) in r.rows)
  {
    var p := setup.prepared;
    var rec := Reconciled(p, slot);
    var t3 := Save(p, rec);
    SaveOutcome(p, rec);
    var order := ShiftOrder(setup.plan, setup.toShift);
    if setup.plan.extend && setup.toShift != [] {
      ReverseKeepsDistinctIds(setup.toShift);
    }
    forall s | s in order ensures exists x :: x in t3.rows && x.id == s.id {
      var x :| x in p.rows && x.id == s.id;
      if x.id == slot.id {
        assert SavedAs(p, rec) in t3.rows;
      }
    }
    ApplyShiftsOutcome(t3, order, weeks, rules, setup.plan);
  }

  /** The edition with shift, from what it worked out before saving: the prepared rows of
      other keys that are not shifted stay, every shifted slot is stored, no row is left
      for a slot pushed past the end of the day, and the edited slot is stored unless one
      of the shifted slots had its key. */
  lemma WithShiftTableOutcome(setup: ShiftSetup, weeks: seq<WeekDefinition>, rules: seq<ReservationRule>, slot: Slot)
    requires SetupDefined(setup, weeks, rules, slot)
    requires forall s :: s in setup.toShift ==> Classifiable(weeks, rules, s.date)
    requires KeysOk(setup.prepared) && ToShiftSound(setup, slot)
    ensures var r := WithShiftTable(setup, weeks, rules, slot);
      && (forall x :: x in setup.prepared.rows && x.id != slot.id && NotListed(setup.toShift, x.id) ==> x in r.rows)
      && (forall s :: s in setup.toShift && ShiftStep(weeks, rules, s, setup.plan).Some? ==>
            ShiftStep(weeks, rules, s, setup.plan).value in r.rows)
      && (forall s :: s in setup.toShift && ShiftStep(weeks, rules, s, setup.plan).None? ==> NotListed(r.rows, s.id))
      && (slot.id == 0 || NotListed(setup.toShift, slot.id) ==>
            SavedAs(setup.prepared, Reconciled(setup.prepared, slot)) in r.rows)
  {
    ShiftedTableOutcome(setup, weeks, rules, slot);
    RegenerationKeepsRows(setup, weeks, rules, slot);
  }

  /** Generating the end of the day again keeps every row of the shifted table, under
      slots that all moved earlier and none of which was dropped; when the slots moved
      later, nothing is generated. */
  lemma RegenerationKeepsRows(setup: ShiftSetup, weeks: seq<WeekDefinition>, rules: seq<ReservationRule>, slot: Slot)
    requires SetupDefined(setup, weeks, rules, slot)
    requires forall s :: s in setup.toShift ==> Classifiable(weeks, rules, s.date)
    ensures setup.plan.extend ==> WithShiftTable(setup, weeks, rules, slot) == ShiftedTable(setup, weeks, rules, slot)
    ensures forall x :: x in ShiftedTable(setup, weeks, rules, slot).rows ==> x in WithShiftTable(setup, weeks, rules, slot).rows
    ensures !setup.plan.extend ==> forall s :: s in setup.toShift ==> ShiftStep(weeks, rules, s, setup.plan).Some?
  {
    var t4 := ShiftedTable(setup, weeks, rules, slot);
    if !setup.plan.extend {
      CreateAllAdds(t4, SlotsAfterATime(weeks, rules, setup.regenerateFrom, slot.idForm));
      forall s | s in setup.toShift ensures ShiftStep(weeks, rules, s, setup.plan).Some? {
      }
    }
  }

  /** When the slots moved earlier, the end of the day generated again is stored after
      them, under the next keys. */
  lemma RegeneratedStored(setup: ShiftSetup, weeks: seq<WeekDefinition>, rules: seq<ReservationRule>, slot: Slot)
    requires SetupDefined(setup, weeks, rules, slot)
    requires forall s :: s in setup.toShift ==> Classifiable(weeks, rules, s.date)
    requires !setup.plan.extend
    ensures var regenerated := SlotsAfterATime(weeks, rules, setup.regenerateFrom, slot.idForm);
      forall i :: 0 <= i < |regenerated| ==>
        regenerated[i].(id := ShiftedTable(setup, weeks, rules, slot).nextId + i) in WithShiftTable(setup, weeks, rules, slot).rows
  {
    var t4 := ShiftedTable(setup, weeks, rules, slot);
    var regenerated := SlotsAfterATime(weeks, rules, setup.regenerateFrom, slot.idForm);
    var r := WithShiftTable(setup, weeks, rules, slot);
    assert r == CreateAll(t4, regenerated);
    CreateAllAdds(t4, regenerated);
    forall i | 0 <= i < |regenerated| ensures regenerated[i].(id := t4.nextId + i) in r.rows {
    }
  }

  /** The edition with shift over a table with sound keys: the rows of other keys that
      are neither absorbed nor shifted stay, the absorbed rows are deleted before the shift,
      every shifted slot is stored, no row is left for a slot pushed past the end of the
      day, and the edited slot is stored unless one of the shifted slots had its key. */
  lemma WithShiftOutcome(t: Table, weeks: seq<WeekDefinition>, rules: seq<ReservationRule>, closingDays: seq<int>,
                         slot: Slot, previousEndingTime: int)
    requires KeysOk(t)
    requires WithShiftDefined(t, weeks, rules, closingDays, slot, previousEndingTime)
    ensures var setup := SetupShift(t, weeks, rules, closingDays, slot, previousEndingTime);
      var absorbed := Select(FollowingSlots(t, weeks, rules, closingDays, slot), AbsorbedBy(slot));
      var r := WithShiftTable(setup, weeks, rules, slot);
      && (forall x :: x in t.rows && x.id != slot.id && NotListed(absorbed, x.id) && NotListed(setup.toShift, x.id) ==>
            x in r.rows)
      && (forall a :: a in absorbed ==> NotListed(setup.prepared.rows, a.id))
      && (forall s :: s in setup.toShift && ShiftStep(weeks, rules, s, setup.plan).Some? ==>
            ShiftStep(weeks, rules, s, setup.plan).value in r.rows)
      && (forall s :: s in setup.toShift && ShiftStep(weeks, rules, s, setup.plan).None? ==> NotListed(r.rows, s.id))
      && (slot.id == 0 || NotListed(setup.toShift, slot.id) ==>
            SavedAs(setup.prepared, Reconciled(setup.prepared, slot)) in r.rows)
  {
    var following := FollowingSlots(t, weeks, rules, closingDays, slot);
    var setup := SetupShift(t, weeks, rules, closingDays, slot, previousEndingTime);
    assert setup.prepared == Prepared(t, following, slot);
    FollowingStored(t, weeks, rules, closingDays, slot);
    PreparedRows(t, following, slot);
    SetupSound(t, weeks, rules, closingDays, slot, previousEndingTime);
    WithShiftTableOutcome(setup, weeks, rules, slot);
  }

  /** When the edited slot got longer, the slots move latest first by the distance from
      the earliest of them to the new end: a slot that the new end overlaps then starts
      exactly at the new end, while a slot that started after the new end moves away from
      it, so that the gap between them doubles. */
  lemma ExtendMovesFirstSlot(weeks: seq<WeekDefinition>, rules: seq<ReservationRule>, slot: Slot,
                             previousEndingTime: int, toShift: seq<Slot>)
    requires DayIsDefined(weeks, rules, slot.date) && previousEndingTime < slot.endingTime
    requires toShift != [] && Chronological(toShift)
    ensures var plan := PlanFor(weeks, rules, slot, previousEndingTime, toShift);
      var first := toShift[0].startingDateTime;
      && ShiftOrder(plan, toShift) == Reverse(toShift)
      && (first <= slot.endingDateTime ==> first + plan.timeToAdd == slot.endingDateTime)
      && (first > slot.endingDateTime ==> first + plan.timeToAdd - slot.endingDateTime == 2 * (first - slot.endingDateTime))
  {
    ChronologicalEarliestIsFirst(toShift);
  }

  /** When the edited slot got shorter (or kept its end), every slot to shift moves
      earlier, as a whole and in chronological order, by exactly the shrinkage, and the end
      of the day is generated again from the day's end moved back by that much. */
  lemma ShrinkMovesEarlier(weeks: seq<WeekDefinition>, rules: seq<ReservationRule>, slot: Slot,
                           previousEndingTime: int, toShift: seq<Slot>, s: Slot)
    requires DayIsDefined(weeks, rules, slot.date) && slot.endingTime <= previousEndingTime
    requires s in toShift && Classifiable(weeks, rules, s.date)
    ensures var plan := PlanFor(weeks, rules, slot, previousEndingTime, toShift);
      var moved := ShiftStep(weeks, rules, s, plan);
      var shrinkage := previousEndingTime - slot.endingTime;
      && ShiftOrder(plan, toShift) == toShift
      && moved.Some?
      && moved.value.startingDateTime == s.startingDateTime - shrinkage
      && moved.value.endingDateTime == s.endingDateTime - shrinkage
      && RegenerationStart(plan) == AtTime(slot.date, DayEndTime(weeks, rules, slot.date)) - shrinkage
  {
  }
}
