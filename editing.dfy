/** The edition of a slot (SlotService.updateSlot and its two helpers
    updateSlotWithoutShift and updateSlotWithShift): the table each of them leaves, the
    methods that follow the source step by step, and what the edition guarantees about the
    edited slot and the slots around it. */
module Editing {
  import opened SlotTypes
  import opened RuleLookup
  import opened Specific
  import opened Store
  import opened Capacity
  import opened Materialise
  import opened Persist
  import opened Generate
  import opened Shifting

  /** The slot as saveSlot receives it: reconciled with its stored version when it has a
      key (updateRemainingPlaces), as it is otherwise. */
  function Reconciled(t: Table, slot: Slot): Slot
    requires slot.id != 0 ==> FindSlot(t.rows, slot.id).Some?
  {
    if slot.id != 0 then Reconcile(slot, FindSlot(t.rows, slot.id).value) else slot
  }

  // ---------------------------------------------------------------------------------
  // updateSlotWithoutShift

  /** The least date-time at or after `target` in the list (getClosestDateTimeInFuture),
      None when every one of them lies before it. */
  function ClosestInFuture(list: seq<int>, target: int): (r: Option<int>)
    ensures r.None? <==> forall k :: k in list ==> k < target
    ensures r.Some? ==> r.value in list && target <= r.value
    ensures r.Some? ==> forall k :: k in list && target <= k ==> r.value <= k
  {
    if list == [] then None
    else
      assert forall k :: k in list <==> k == list[0] || k in list[1..];
      assert list[0] in list;
      var rest := ClosestInFuture(list[1..], target);
      if list[0] < target || (rest.Some? && rest.value < list[0]) then rest else Some(list[0])
  }

  /** The three properties of ClosestInFuture determine it. */
  lemma ClosestUnique(list: seq<int>, target: int, r: Option<int>)
    requires r.None? <==> forall k :: k in list ==> k < target
    requires r.Some? ==> r.value in list && target <= r.value
    requires r.Some? ==> forall k :: k in list && target <= k ==> r.value <= k
    ensures r == ClosestInFuture(list, target)
  {
  }

  /** getClosestDateTimeInFuture: one pass over the list keeping the least date-time found
      at or after `target`. */
  method GetClosestDateTimeInFuture(list: seq<int>, target: int) returns (r: Option<int>)
    ensures r == ClosestInFuture(list, target)
  {
    r := None;
    var i := 0;
    while i < |list|
      invariant 0 <= i <= |list|
      invariant r.None? <==> forall j :: 0 <= j < i ==> list[j] < target
      invariant r.Some? ==> (exists j :: 0 <= j < i && list[j] == r.value) && target <= r.value
      invariant r.Some? ==> forall j :: 0 <= j < i && target <= list[j] ==> r.value <= list[j]
    {
      if target <= list[i] && (r.None? || list[i] < r.value) {
        r := Some(list[i]);
      }
      i := i + 1;
    }
    if r.Some? {
      var j :| 0 <= j < |list| && list[j] == r.value;
      assert list[j] in list;
    }
    ClosestUnique(list, target, r);
  }

  /** The starting date-times of the slots, in list order. */
  function Starts(list: seq<Slot>): (r: seq<int>)
    ensures |r| == |list|
    ensures forall i :: 0 <= i < |list| ==> r[i] == list[i].startingDateTime
  {
    if list == [] then [] else [list[0].startingDateTime] + Starts(list[1..])
  }

  /** The starts of the slots are the keys of the map built from them: the list of keys
      the source takes from the map holds exactly these date-times. */
  lemma StartsAreTheKeys(list: seq<Slot>)
    ensures forall k :: k in Starts(list) <==> k in MapByStart(list)
  {
    var r := Starts(list);
    forall k | k in MapByStart(list) ensures k in r {
      var s :| s in list && s.startingDateTime == k;
      var i :| 0 <= i < |list| && list[i] == s;
      assert r[i] == k;
    }
  }

  /** The rows deleted first: the slots of the form that start after the edited slot and
      end within it. */
  function Absorbed(t: Table, slot: Slot): seq<Slot>
  {
    FindSlotsByIdFormAndDateRange(t.rows, slot.idForm, slot.startingDateTime + 1, slot.endingDateTime)
  }

  /** The slots of the form that start at or after the edited slot's end, on its day. */
  function AfterEdited(t1: Table, slot: Slot): seq<Slot>
  {
    FindSlotsByIdFormAndDateRange(t1.rows, slot.idForm, slot.endingDateTime, AtTime(slot.date, MinutesPerDay - 1))
  }

  /** The working day of the edited slot's date. */
  function EditedWorkingDay(weeks: seq<WeekDefinition>, slot: Slot): Option<WorkingDay>
    requires EffectiveWeekDefinition(weeks, slot.date).Some?
  {
    WorkingDayOfDayOfWeek(EffectiveWeekDefinition(weeks, slot.date).value.workingDays, DayOfWeek(slot.date))
  }

  /** nextStartingDateTime: the start of the first slot after the edited one; when there
      is none, the first template of the working day that starts at or after the edited
      slot's end; None on a day without a working day or without such a template. */
  function NextStart(t1: Table, weeks: seq<WeekDefinition>, slot: Slot): (r: Option<int>)
    requires EffectiveWeekDefinition(weeks, slot.date).Some?
    ensures AfterEdited(t1, slot) != [] ==>
      && r.Some?
      && (exists s :: s in AfterEdited(t1, slot) && s.startingDateTime == r.value)
      && forall s :: s in AfterEdited(t1, slot) ==> r.value <= s.startingDateTime
    ensures AfterEdited(t1, slot) == [] ==>
      (r.Some? <==> EditedWorkingDay(weeks, slot).Some?
                    && exists x :: x in EditedWorkingDay(weeks, slot).value.timeSlots && x.startingTime >= slot.endingTime)
    ensures AfterEdited(t1, slot) == [] && r.Some? && EditedWorkingDay(weeks, slot).Some? ==>
      exists x :: && x in EditedWorkingDay(weeks, slot).value.timeSlots && x.startingTime >= slot.endingTime
                  && r.value == AtTime(slot.date, x.startingTime)
                  && forall y :: y in EditedWorkingDay(weeks, slot).value.timeSlots && y.startingTime >= slot.endingTime ==>
                       x.startingTime <= y.startingTime
  {
    var after := AfterEdited(t1, slot);
    if after != [] then
      var starts := Starts(after);
      assert after[0] in after && starts[0] == after[0].startingDateTime;
      forall s | s in after ensures s.startingDateTime in starts && slot.endingDateTime <= s.startingDateTime {
        var i :| 0 <= i < |after| && after[i] == s;
        assert starts[i] == s.startingDateTime;
      }
      var r := ClosestInFuture(starts, slot.endingDateTime);
      var i :| 0 <= i < |starts| && starts[i] == r.value;
      assert after[i] in after;
      r
    else
      var workingDay := EditedWorkingDay(weeks, slot);
      if workingDay.Some? then
        var nextTimeSlots := TimeSlotsFrom(workingDay.value.timeSlots, slot.endingTime);
        if nextTimeSlots != [] then Some(AtTime(slot.date, MinStartingTime(nextTimeSlots))) else None
      else None
  }

  /** The day is generated after the edited slot: nothing follows it and its date has no
      working day. */
  predicate GeneratesAfter(t1: Table, weeks: seq<WeekDefinition>, slot: Slot)
    requires EffectiveWeekDefinition(weeks, slot.date).Some?
  {
    AfterEdited(t1, slot) == [] && EditedWorkingDay(weeks, slot).None?
  }

  /** The closed, specific slot that fills the gap between the edited slot's end and
      `next`, with the edited slot's capacity on all three counters. */
  function GapSlot(slot: Slot, next: int): (r: Slot)
    ensures r.id == 0 && r.idForm == slot.idForm && !r.isOpen && r.isSpecific
    ensures r.startingDateTime == slot.endingDateTime && r.endingDateTime == next
    ensures r.maxCapacity == slot.maxCapacity && r.nbRemainingPlaces == slot.maxCapacity
    ensures r.nbPotentialRemainingPlaces == slot.maxCapacity && r.nbPlacesTaken == 0
    ensures DerivedFieldsAgree(r)
  {
    BuildSlot(slot.idForm, Period(slot.endingDateTime, next), slot.maxCapacity, slot.maxCapacity,
              slot.maxCapacity, 0, false, true)
  }

  /** The slots updateSlotWithoutShift creates after the edited slot: the generated day
      when nothing follows on a day without a working day, the gap slot up to the next
      start when there is one and it differs from the edited slot's end, nothing otherwise. */
  function CreatedWithoutShift(t1: Table, weeks: seq<WeekDefinition>, rules: seq<ReservationRule>, slot: Slot): seq<Slot>
    requires EffectiveWeekDefinition(weeks, slot.date).Some?
    requires GeneratesAfter(t1, weeks, slot) ==> DayIsDefined(weeks, rules, DateOf(slot.endingDateTime))
  {
    var next := NextStart(t1, weeks, slot);
    if next.Some? then (if next.value != slot.endingDateTime then [GapSlot(slot, next.value)] else [])
    else if GeneratesAfter(t1, weeks, slot) then SlotsAfterATime(weeks, rules, slot.endingDateTime, slot.idForm)
    else []
  }

  /** What updateSlotWithoutShift dereferences: the week in force on the slot's date, the
      stored slot once the absorbed rows are gone, and the rules of the end's date when the
      day is generated after the slot. */
  predicate WithoutShiftDefined(t: Table, weeks: seq<WeekDefinition>, rules: seq<ReservationRule>, slot: Slot)
  {
    FillDefined(DeleteAll(t, Absorbed(t, slot)), weeks, rules, slot)
  }

  /** What updateSlotWithoutShift dereferences once the absorbed rows are gone. */
  predicate FillDefined(t1: Table, weeks: seq<WeekDefinition>, rules: seq<ReservationRule>, slot: Slot)
  {
    && EffectiveWeekDefinition(weeks, slot.date).Some?
    && (slot.id != 0 ==> FindSlot(t1.rows, slot.id).Some?)
    && (GeneratesAfter(t1, weeks, slot) ==> DayIsDefined(weeks, rules, DateOf(slot.endingDateTime)))
  }

  /** The table after updateSlotWithoutShift: the absorbed rows deleted, the edited slot
      saved, then the slots after it created. The counter hands out one key to the edited
      slot when it had none and one to every slot created after it, and no other. */
  function WithoutShiftTable(t: Table, weeks: seq<WeekDefinition>, rules: seq<ReservationRule>, slot: Slot): (r: Table)
    requires WithoutShiftDefined(t, weeks, rules, slot)
    ensures r.nextId == t.nextId + (if slot.id == 0 then 1 else 0)
                        + |CreatedWithoutShift(DeleteAll(t, Absorbed(t, slot)), weeks, rules, slot)|
  {
    Filled(DeleteAll(t, Absorbed(t, slot)), weeks, rules, slot)
  }

  /** The table once the edited slot is saved and the slots after it created, from the
      table without the absorbed rows: one new row, under a new key, for the edited slot
      when it had no key and for every slot created after it; the edited slot's row is
      rewritten in place when it had one. */
  function Filled(t1: Table, weeks: seq<WeekDefinition>, rules: seq<ReservationRule>, slot: Slot): (r: Table)
    requires FillDefined(t1, weeks, rules, slot)
    ensures r.nextId == t1.nextId + (if slot.id == 0 then 1 else 0) + |CreatedWithoutShift(t1, weeks, rules, slot)|
    ensures |r.rows| == |t1.rows| + (if slot.id == 0 then 1 else 0) + |CreatedWithoutShift(t1, weeks, rules, slot)|
  {
    CreateAll(Save(t1, Reconciled(t1, slot)), CreatedWithoutShift(t1, weeks, rules, slot))
  }

  /** updateSlotWithoutShift. */
  method UpdateSlotWithoutShift(store: SlotStore, weeks: seq<WeekDefinition>, rules: seq<ReservationRule>, slot: Slot)
    requires store.Valid()
    requires WithoutShiftDefined(Table(store.rows, store.nextId), weeks, rules, slot)
    modifies store
    ensures store.Valid()
    ensures Table(store.rows, store.nextId) == WithoutShiftTable(Table(old(store.rows), old(store.nextId)), weeks, rules, slot)
  {
    DeleteAbsorbed(store, slot);
    SaveAndFill(store, weeks, rules, slot);
  }

  /** The first step of updateSlotWithoutShift: the slots of the form that start within
      the edited slot, after its start, are deleted. */
  method DeleteAbsorbed(store: SlotStore, slot: Slot)
    requires store.Valid()
    modifies store
    ensures store.Valid()
    ensures Table(store.rows, store.nextId)
            == DeleteAll(Table(old(store.rows), old(store.nextId)), Absorbed(Table(old(store.rows), old(store.nextId)), slot))
  {
    ghost var t := Table(store.rows, store.nextId);
    var listSlotToDelete := FindSlotsByIdFormAndDateRange(store.rows, slot.idForm, slot.startingDateTime + 1,
                                                          slot.endingDateTime);
    assert listSlotToDelete == Absorbed(t, slot);
    DeleteListSlots(store, listSlotToDelete);
  }

  /** The rest of updateSlotWithoutShift once the absorbed rows are gone. */
  method SaveAndFill(store: SlotStore, weeks: seq<WeekDefinition>, rules: seq<ReservationRule>, slot: Slot)
    requires store.Valid()
    requires FillDefined(Table(store.rows, store.nextId), weeks, rules, slot)
    modifies store
    ensures store.Valid()
    ensures Table(store.rows, store.nextId) == Filled(Table(old(store.rows), old(store.nextId)), weeks, rules, slot)
  {
    var listSlotToCreateAfter := NextSlotsWithoutShift(store, weeks, rules, slot);
    SaveEdited(store, slot);
    var _ := CreateListSlot(store, listSlotToCreateAfter);
  }

  /** The edited slot saved, reconciled with its stored version when it has a key. */
  method SaveEdited(store: SlotStore, slot: Slot)
    requires store.Valid()
    requires slot.id != 0 ==> FindSlot(store.rows, slot.id).Some?
    modifies store
    ensures store.Valid()
    ensures Table(store.rows, store.nextId)
            == Save(Table(old(store.rows), old(store.nextId)), Reconciled(Table(old(store.rows), old(store.nextId)), slot))
  {
    var s := slot;
    if s.id != 0 {
      s := UpdateRemainingPlaces(store, s);
    }
    var _ := SaveSlot(store, s);
  }

  /** The part of updateSlotWithoutShift that decides what to create after the edited
      slot, once the absorbed rows are gone. */
  method NextSlotsWithoutShift(store: SlotStore, weeks: seq<WeekDefinition>, rules: seq<ReservationRule>, slot: Slot)
    returns (listSlotToCreate: seq<Slot>)
    requires EffectiveWeekDefinition(weeks, slot.date).Some?
    requires GeneratesAfter(Table(store.rows, store.nextId), weeks, slot) ==> DayIsDefined(weeks, rules, DateOf(slot.endingDateTime))
    ensures listSlotToCreate == CreatedWithoutShift(Table(store.rows, store.nextId), weeks, rules, slot)
  {
    ghost var t1 := Table(store.rows, store.nextId);
    var nextStartingDateTime: Option<int>;
    var bNextSlotFound: bool;
    bNextSlotFound, nextStartingDateTime := ClosestNextSlot(store, slot);
    listSlotToCreate := [];
    if !bNextSlotFound {
      nextStartingDateTime, listSlotToCreate := NextFromTheDay(weeks, rules, slot);
    }
    assert nextStartingDateTime == NextStart(t1, weeks, slot);
    if nextStartingDateTime.Some? && slot.endingDateTime != nextStartingDateTime.value {
      var slotToCreate := BuildSlot(slot.idForm, Period(slot.endingDateTime, nextStartingDateTime.value),
                                    slot.maxCapacity, slot.maxCapacity, slot.maxCapacity, 0, false, true);
      listSlotToCreate := listSlotToCreate + [slotToCreate];
    }
  }

  /** The slots after the edited one on its day, keyed by start, and the closest start. */
  method ClosestNextSlot(store: SlotStore, slot: Slot) returns (found: bool, nextStartingDateTime: Option<int>)
    ensures found <==> AfterEdited(Table(store.rows, store.nextId), slot) != []
    ensures found ==> nextStartingDateTime == ClosestInFuture(Starts(AfterEdited(Table(store.rows, store.nextId), slot)), slot.endingDateTime)
    ensures !found ==> nextStartingDateTime.None?
  {
    var after := FindSlotsByIdFormAndDateRange(store.rows, slot.idForm, slot.endingDateTime,
                                               AtTime(slot.date, MinutesPerDay - 1));
    var mapNextSlot := BuildMapSlotsByIdFormAndDateRangeWithDateForKey(store, slot.idForm, slot.endingDateTime,
                                                                       AtTime(slot.date, MinutesPerDay - 1));
    var listStartingDateTimeNextSlot := Starts(after);
    StartsAreTheKeys(after);
    assert forall k :: k in listStartingDateTimeNextSlot <==> k in mapNextSlot;
    found := listStartingDateTimeNextSlot != [];
    nextStartingDateTime := None;
    if found {
      nextStartingDateTime := GetClosestDateTimeInFuture(listStartingDateTimeNextSlot, slot.endingDateTime);
    }
  }

  /** With no slot after the edited one: the first template of the working day from the
      edited slot's end on, or, on a day without a working day, the generated day. */
  method NextFromTheDay(weeks: seq<WeekDefinition>, rules: seq<ReservationRule>, slot: Slot)
    returns (nextStartingDateTime: Option<int>, listSlotToCreate: seq<Slot>)
    requires EffectiveWeekDefinition(weeks, slot.date).Some?
    requires EditedWorkingDay(weeks, slot).None? ==> DayIsDefined(weeks, rules, DateOf(slot.endingDateTime))
    ensures EditedWorkingDay(weeks, slot).Some? ==> listSlotToCreate == []
    ensures EditedWorkingDay(weeks, slot).Some? ==>
      var nextTimeSlots := TimeSlotsFrom(EditedWorkingDay(weeks, slot).value.timeSlots, slot.endingTime);
      nextStartingDateTime == (if nextTimeSlots != [] then Some(AtTime(slot.date, MinStartingTime(nextTimeSlots))) else None)
    ensures EditedWorkingDay(weeks, slot).None? ==>
      nextStartingDateTime.None? && listSlotToCreate == SlotsAfterATime(weeks, rules, slot.endingDateTime, slot.idForm)
  {
    nextStartingDateTime := None;
    listSlotToCreate := [];
    var weekDefinition := EffectiveWeekDefinition(weeks, slot.date).value;
    var workingDay := WorkingDayOfDayOfWeek(weekDefinition.workingDays, DayOfWeek(slot.date));
    if workingDay.Some? {
      var nextTimeSlots := TimeSlotsFrom(workingDay.value.timeSlots, slot.endingTime);
      if nextTimeSlots != [] {
        nextStartingDateTime := Some(AtTime(slot.date, MinStartingTime(nextTimeSlots)));
      }
    } else {
      listSlotToCreate := GenerateListSlotToCreateAfterATime(weeks, rules, slot.endingDateTime, slot.idForm);
    }
  }

  // ---------------------------------------------------------------------------------
  // updateSlotWithShift

  /** The slots of the edited slot's day that start after it, as buildListSlot gives them. */
  function FollowingSlots(t: Table, weeks: seq<WeekDefinition>, rules: seq<ReservationRule>, closingDays: seq<int>,
                          slot: Slot): seq<Slot>
    requires ValidWeekDefinitions(weeks) && FormRowsWithinOneDay(t.rows, slot.idForm)
  {
    Select(Planning(t.rows, slot.idForm, weeks, rules, closingDays, slot.date, slot.date), StartsAfter(slot))
  }

  /** The following slots that survive the deletion: all but the persisted ones that end
      within the edited slot. */
  function Kept(following: seq<Slot>, slot: Slot): seq<Slot>
  {
    Select(following, NotAbsorbedBy(slot))
  }

  /** The table once the absorbed slots are deleted and the kept slots that were only
      built are created. */
  function Prepared(t: Table, following: seq<Slot>, slot: Slot): Table
  {
    CreateAll(DeleteAll(t, Select(following, AbsorbedBy(slot))), Select(Kept(following, slot), UnsavedOnly))
  }

  /** The slots to shift, in chronological order, each with its key: the kept slots with
      the keys just handed out to those that had none. */
  function SlotsToShift(t: Table, following: seq<Slot>, slot: Slot): seq<Slot>
  {
    AssignIds(Kept(following, slot), t.nextId)
  }

  /** How far the slots after the edited one move: when the edited slot got longer, by the
      distance between its new end and the earliest slot to shift, or, with none to shift,
      by the growth of the edited slot; when it got shorter, earlier by its shrinkage. The
      end of the day is the latest end of the day's templates, of the whole week on a day
      without a working day. */
  function PlanFor(weeks: seq<WeekDefinition>, rules: seq<ReservationRule>, slot: Slot, previousEndingTime: int,
                   toShift: seq<Slot>): (plan: ShiftPlan)
    requires DayIsDefined(weeks, rules, slot.date)
    ensures plan.extend <==> previousEndingTime < slot.endingTime
    ensures plan.extend && toShift != [] ==>
      plan.timeToAdd == Distance(slot.endingDateTime, EarliestStart(toShift))
    ensures plan.extend && toShift == [] ==> plan.timeToAdd == slot.endingTime - previousEndingTime
    ensures !plan.extend ==> plan.timeToSubstract == previousEndingTime - slot.endingTime >= 0
    ensures plan.endOfDay == AtTime(slot.date, DayEndTime(weeks, rules, slot.date))
  {
    var extend := previousEndingTime < slot.endingTime;
    var timeToAdd :=
      if !extend then 0
      else if toShift != [] then
        var next := EarliestStart(toShift);
        if slot.endingDateTime > next then slot.endingDateTime - next else next - slot.endingDateTime
      else slot.endingTime - previousEndingTime;
    var timeToSubstract := if extend then 0 else previousEndingTime - slot.endingTime;
    ShiftPlan(extend, timeToAdd, timeToSubstract, AtTime(slot.date, DayEndTime(weeks, rules, slot.date)))
  }

  /** Where the end of the day is generated again after the slots moved earlier: the end
      of the day moved back by the shift. */
  function RegenerationStart(plan: ShiftPlan): int
  {
    plan.endOfDay - plan.timeToSubstract
  }

  /** The number of minutes between two date-times, whichever comes first. */
  function Distance(a: int, b: int): (r: int)
    ensures r >= 0 && (r == a - b || r == b - a)
  {
    if a > b then a - b else b - a
  }

  /** The order of the shift loop: latest first when the slots move later, so that no
      slot is moved onto one not yet moved, chronological otherwise. */
  function ShiftOrder(plan: ShiftPlan, toShift: seq<Slot>): (r: seq<Slot>)
    ensures multiset(r) == multiset(toShift)
    ensures forall s :: s in r <==> s in toShift
  {
    if plan.extend && toShift != [] then
      var r := Reverse(toShift);
      assert forall s :: s in r <==> s in multiset(r);
      r
    else toShift
  }

  /** What updateSlotWithShift has worked out before it saves the edited slot: the
      table with the absorbed slots deleted and the kept ones created, the slots to shift
      and how to shift them, and the date-time from which the end of the day is generated
      again when the slots move earlier (the end of the day moved back by the shift). */
  datatype ShiftSetup = ShiftSetup(prepared: Table, toShift: seq<Slot>, plan: ShiftPlan, regenerateFrom: int)

  function SetupShift(t: Table, weeks: seq<WeekDefinition>, rules: seq<ReservationRule>, closingDays: seq<int>,
                      slot: Slot, previousEndingTime: int): (r: ShiftSetup)
    requires DayIsDefined(weeks, rules, slot.date) && FormRowsWithinOneDay(t.rows, slot.idForm)
    ensures forall s :: s in r.toShift ==> s.date == slot.date && Classifiable(weeks, rules, s.date)
    ensures r.regenerateFrom == RegenerationStart(r.plan)
    ensures t.nextId <= r.prepared.nextId
  {
    var following := FollowingSlots(t, weeks, rules, closingDays, slot);
    SlotsToShiftOnTheDate(t, weeks, rules, closingDays, slot);
    Arranged(Prepared(t, following, slot), SlotsToShift(t, following, slot), weeks, rules, slot, previousEndingTime)
  }

  /** The setup once the table is prepared and the slots to shift are known. */
  function Arranged(prepared: Table, toShift: seq<Slot>, weeks: seq<WeekDefinition>, rules: seq<ReservationRule>,
                    slot: Slot, previousEndingTime: int): (r: ShiftSetup)
    requires DayIsDefined(weeks, rules, slot.date)
    ensures r.regenerateFrom == RegenerationStart(r.plan)
  {
    var plan := PlanFor(weeks, rules, slot, previousEndingTime, toShift);
    ShiftSetup(prepared, toShift, plan, RegenerationStart(plan))
  }

  /** What updateSlotWithShift dereferences: the rules of the slot's date, the stored slot
      once the table is prepared, and the rules of the date the regeneration starts on
      when the slots moved earlier. */
  predicate WithShiftDefined(t: Table, weeks: seq<WeekDefinition>, rules: seq<ReservationRule>, closingDays: seq<int>,
                             slot: Slot, previousEndingTime: int)
  {
    && DayIsDefined(weeks, rules, slot.date)
    && FormRowsWithinOneDay(t.rows, slot.idForm)
    && SetupDefined(SetupShift(t, weeks, rules, closingDays, slot, previousEndingTime), weeks, rules, slot)
  }

  /** The stored slot after preparation, and the rules of the date the regeneration starts on. */
  predicate SetupDefined(setup: ShiftSetup, weeks: seq<WeekDefinition>, rules: seq<ReservationRule>, slot: Slot)
  {
    && (slot.id != 0 ==> FindSlot(setup.prepared.rows, slot.id).Some?)
    && (!setup.plan.extend ==> DayIsDefined(weeks, rules, DateOf(setup.regenerateFrom)))
  }

  /** Every slot to shift lies on the edited slot's date, so the rules of that date
      classify it. */
  lemma SlotsToShiftOnTheDate(t: Table, weeks: seq<WeekDefinition>, rules: seq<ReservationRule>, closingDays: seq<int>,
                              slot: Slot)
    requires DayIsDefined(weeks, rules, slot.date) && FormRowsWithinOneDay(t.rows, slot.idForm)
    ensures forall s :: s in SlotsToShift(t, FollowingSlots(t, weeks, rules, closingDays, slot), slot) ==>
              s.date == slot.date && Classifiable(weeks, rules, s.date)
  {
    var following := FollowingSlots(t, weeks, rules, closingDays, slot);
    var kept := Kept(following, slot);
    var r := SlotsToShift(t, following, slot);
    forall s | s in r ensures s.date == slot.date {
      var i :| 0 <= i < |r| && r[i] == s;
      assert r[i].(id := kept[i].id) == kept[i] && kept[i] in kept;
    }
  }

  /** The table after the edited slot is saved and the slots after it are shifted. The
      counter never moves back; when every slot to shift has its key, only the edited
      slot, if it had none, gets a new one. */
  function ShiftedTable(setup: ShiftSetup, weeks: seq<WeekDefinition>, rules: seq<ReservationRule>, slot: Slot): (r: Table)
    requires slot.id != 0 ==> FindSlot(setup.prepared.rows, slot.id).Some?
    requires forall s :: s in setup.toShift ==> Classifiable(weeks, rules, s.date)
    ensures setup.prepared.nextId <= r.nextId
    ensures (forall s :: s in setup.toShift ==> s.id != 0) ==>
              r.nextId == setup.prepared.nextId + (if slot.id == 0 then 1 else 0)
  {
    var t3 := Save(setup.prepared, Reconciled(setup.prepared, slot));
    ApplyShifts(t3, ShiftOrder(setup.plan, setup.toShift), weeks, rules, setup.plan)
  }

  /** The table after updateSlotWithShift, from what it worked out before saving the
      edited slot: the edited slot saved, the kept slots shifted, and, when they moved
      earlier, the end of the day generated again from the day's end moved back by the
      shift. The counter never moves back; when every slot to shift has its key, new keys
      go only to the edited slot, if it had none, and to the regenerated slots. */
  function WithShiftTable(setup: ShiftSetup, weeks: seq<WeekDefinition>, rules: seq<ReservationRule>, slot: Slot): (r: Table)
    requires SetupDefined(setup, weeks, rules, slot)
    requires forall s :: s in setup.toShift ==> Classifiable(weeks, rules, s.date)
    ensures setup.prepared.nextId <= r.nextId
    ensures setup.plan.extend && (forall s :: s in setup.toShift ==> s.id != 0) ==>
              r.nextId == setup.prepared.nextId + (if slot.id == 0 then 1 else 0)
    ensures !setup.plan.extend && (forall s :: s in setup.toShift ==> s.id != 0) ==>
              r.nextId == setup.prepared.nextId + (if slot.id == 0 then 1 else 0)
                          + |SlotsAfterATime(weeks, rules, setup.regenerateFrom, slot.idForm)|
  {
    var t4 := ShiftedTable(setup, weeks, rules, slot);
    if setup.plan.extend then t4
    else CreateAll(t4, SlotsAfterATime(weeks, rules, setup.regenerateFrom, slot.idForm))
  }

  /** updateSlotWithShift. */
  method UpdateSlotWithShift(store: SlotStore, weeks: seq<WeekDefinition>, rules: seq<ReservationRule>,
                             closingDays: seq<int>, slot: Slot, previousEndingTime: int)
    requires store.Valid()
    requires WithShiftDefined(Table(store.rows, store.nextId), weeks, rules, closingDays, slot, previousEndingTime)
    modifies store
    ensures store.Valid()
    ensures Table(store.rows, store.nextId)
            == WithShiftTable(SetupShift(Table(old(store.rows), old(store.nextId)), weeks, rules, closingDays, slot,
                                         previousEndingTime), weeks, rules, slot)
  {
    var toShift := PrepareShift(store, weeks, rules, closingDays, slot);
    PlanAndShift(store, weeks, rules, slot, previousEndingTime, toShift);
  }

  /** The rest of updateSlotWithShift once the table is prepared: the shift worked out,
      then the edited slot saved and the others shifted. */
  method PlanAndShift(store: SlotStore, weeks: seq<WeekDefinition>, rules: seq<ReservationRule>, slot: Slot,
                      previousEndingTime: int, toShift: seq<Slot>)
    requires store.Valid()
    requires DayIsDefined(weeks, rules, slot.date)
    requires SetupDefined(Arranged(Table(store.rows, store.nextId), toShift, weeks, rules, slot, previousEndingTime),
                          weeks, rules, slot)
    requires forall s :: s in toShift ==> Classifiable(weeks, rules, s.date)
    modifies store
    ensures store.Valid()
    ensures Table(store.rows, store.nextId)
            == WithShiftTable(Arranged(Table(old(store.rows), old(store.nextId)), toShift, weeks, rules, slot,
                                       previousEndingTime), weeks, rules, slot)
  {
    var plan, listSlotToShift, dateTimeToStartCreation := PlanShift(weeks, rules, slot, previousEndingTime, toShift);
    SaveAndShift(store, weeks, rules, slot, toShift, plan, listSlotToShift, dateTimeToStartCreation);
  }

  /** The first part of updateSlotWithShift: the slots of the day after the edited one,
      the absorbed ones deleted, the others that were only built created, and the slots
      to shift sorted by start. */
  method PrepareShift(store: SlotStore, weeks: seq<WeekDefinition>, rules: seq<ReservationRule>,
                      closingDays: seq<int>, slot: Slot) returns (listSlotToShift: seq<Slot>)
    requires store.Valid()
    requires DayIsDefined(weeks, rules, slot.date) && FormRowsWithinOneDay(store.rows, slot.idForm)
    modifies store
    ensures store.Valid()
    ensures Table(store.rows, store.nextId)
            == Prepared(Table(old(store.rows), old(store.nextId)),
                        FollowingSlots(Table(old(store.rows), old(store.nextId)), weeks, rules, closingDays, slot), slot)
    ensures listSlotToShift
            == SlotsToShift(Table(old(store.rows), old(store.nextId)),
                            FollowingSlots(Table(old(store.rows), old(store.nextId)), weeks, rules, closingDays, slot), slot)
  {
    var following := SlotsOfTheDayAfter(store, weeks, rules, closingDays, slot);
    listSlotToShift := DeleteAndCreate(store, following, slot);
  }

  /** The slots of the edited slot's day, built or stored, that start after it. */
  method SlotsOfTheDayAfter(store: SlotStore, weeks: seq<WeekDefinition>, rules: seq<ReservationRule>,
                            closingDays: seq<int>, slot: Slot) returns (following: seq<Slot>)
    requires DayIsDefined(weeks, rules, slot.date) && FormRowsWithinOneDay(store.rows, slot.idForm)
    ensures following == FollowingSlots(Table(store.rows, store.nextId), weeks, rules, closingDays, slot)
    ensures Chronological(following)
  {
    var listAllSlotsOfThisDayToBuildOrInDb := BuildListSlot(store, slot.idForm, weeks, rules, closingDays, slot.date, slot.date);
    following := Select(listAllSlotsOfThisDayToBuildOrInDb, StartsAfter(slot));
    SelectKeepsOrder(listAllSlotsOfThisDayToBuildOrInDb, StartsAfter(slot));
  }

  /** The absorbed slots deleted, the kept slots that were only built created, and the
      kept slots sorted by start with their keys. */
  method DeleteAndCreate(store: SlotStore, following: seq<Slot>, slot: Slot) returns (listSlotToShift: seq<Slot>)
    requires store.Valid()
    requires Chronological(following)
    modifies store
    ensures store.Valid()
    ensures Table(store.rows, store.nextId) == Prepared(Table(old(store.rows), old(store.nextId)), following, slot)
    ensures listSlotToShift == SlotsToShift(Table(old(store.rows), old(store.nextId)), following, slot)
  {
    var listSlotToDelete := Select(following, AbsorbedBy(slot));
    DeleteListSlots(store, listSlotToDelete);
    var listAllSlotsOfThisDayToBuildOrInDb := Select(following, NotAbsorbedBy(slot));
    SelectKeepsOrder(following, NotAbsorbedBy(slot));
    var listExistingSlots := Select(listAllSlotsOfThisDayToBuildOrInDb, PersistedOnly);
    var listSlotToBuild := Select(listAllSlotsOfThisDayToBuildOrInDb, UnsavedOnly);
    var firstId := store.nextId;
    var created := CreateListSlot(store, listSlotToBuild);
    listSlotToShift := SortedUnion(listAllSlotsOfThisDayToBuildOrInDb, firstId, listExistingSlots, created);
  }

  /** `sorted(compare starts)` over the persisted slots followed by the created ones. The
      kept slots are already in chronological order, so the sorted list is the kept list
      with the created slots' keys written back: it is chronological and holds exactly the
      persisted and the created slots, and by Shifting.ChronologicalUnique no other
      chronological arrangement of them exists. */
  method SortedUnion(kept: seq<Slot>, firstId: int, listExistingSlots: seq<Slot>, created: seq<Slot>)
    returns (sorted: seq<Slot>)
    requires Chronological(kept)
    requires listExistingSlots == Select(kept, PersistedOnly)
    requires created == Numbered(Select(kept, UnsavedOnly), firstId)
    ensures sorted == AssignIds(kept, firstId)
    ensures Chronological(sorted) && multiset(sorted) == multiset(listExistingSlots + created)
    ensures forall other :: Chronological(other) && multiset(other) == multiset(listExistingSlots + created) ==>
              other == sorted
  {
    sorted := AssignIds(kept, firstId);
    AssignIdsIsTheSortedUnion(kept, firstId);
    forall other | Chronological(other) && multiset(other) == multiset(listExistingSlots + created)
      ensures other == sorted
    {
      ChronologicalUnique(other, sorted);
    }
  }

  /** The shift parameters of updateSlotWithShift and the order of its loop. */
  method PlanShift(weeks: seq<WeekDefinition>, rules: seq<ReservationRule>, slot: Slot, previousEndingTime: int,
                   toShift: seq<Slot>) returns (plan: ShiftPlan, listSlotToShift: seq<Slot>, dateTimeToStartCreation: int)
    requires DayIsDefined(weeks, rules, slot.date)
    ensures plan == PlanFor(weeks, rules, slot, previousEndingTime, toShift)
    ensures listSlotToShift == ShiftOrder(plan, toShift)
    ensures dateTimeToStartCreation == RegenerationStart(plan)
  {
    var bNewEndingTimeIsAfterThePreviousTime := false;
    var endingTimeOfTheDay := EndingTimeOfTheDay(weeks, rules, slot.date);
    var endingDateTimeOfTheDay := AtTime(slot.date, endingTimeOfTheDay);
    var timeToAdd := 0;
    var timeToSubstract := 0;
    listSlotToShift := toShift;
    if previousEndingTime < slot.endingTime {
      bNewEndingTimeIsAfterThePreviousTime := true;
      if toShift != [] {
        var nextSlotStart := EarliestStart(toShift);
        if slot.endingDateTime > nextSlotStart {
          timeToAdd := slot.endingDateTime - nextSlotStart;
        } else {
          timeToAdd := nextSlotStart - slot.endingDateTime;
        }
        listSlotToShift := Reverse(toShift);
      } else {
        timeToAdd := slot.endingTime - previousEndingTime;
      }
    } else {
      timeToSubstract := previousEndingTime - slot.endingTime;
    }
    plan := ShiftPlan(bNewEndingTimeIsAfterThePreviousTime, timeToAdd, timeToSubstract, endingDateTimeOfTheDay);
    dateTimeToStartCreation := endingDateTimeOfTheDay - timeToSubstract;
  }

  /** The latest end of the templates of the working day of `date`, of the whole week
      on a date without a working day. */
  method EndingTimeOfTheDay(weeks: seq<WeekDefinition>, rules: seq<ReservationRule>, date: int)
    returns (endingTimeOfTheDay: int)
    requires DayIsDefined(weeks, rules, date)
    ensures endingTimeOfTheDay == DayEndTime(weeks, rules, date)
  {
    var weekDefinition := EffectiveWeekDefinition(weeks, date).value;
    var workingDay := WorkingDayOfDayOfWeek(weekDefinition.workingDays, DayOfWeek(date));
    if workingDay.Some? {
      WorkingDayBounds(weekDefinition, workingDay.value);
      endingTimeOfTheDay := MaxEndingTime(workingDay.value.timeSlots);
    } else {
      endingTimeOfTheDay := MaxEndingTimeOfWorkingDays(weekDefinition.workingDays).value;
    }
  }

  /** The second part of updateSlotWithShift: the edited slot reconciled and saved, the
      shift loop, and the regeneration of the end of the day when the slots moved earlier. */
  method SaveAndShift(store: SlotStore, weeks: seq<WeekDefinition>, rules: seq<ReservationRule>, slot: Slot,
                      toShift: seq<Slot>, plan: ShiftPlan, listSlotToShift: seq<Slot>, dateTimeToStartCreation: int)
    requires store.Valid()
    requires SetupDefined(ShiftSetup(Table(store.rows, store.nextId), toShift, plan, dateTimeToStartCreation),
                          weeks, rules, slot)
    requires forall s :: s in toShift ==> Classifiable(weeks, rules, s.date)
    requires listSlotToShift == ShiftOrder(plan, toShift)
    modifies store
    ensures store.Valid()
    ensures Table(store.rows, store.nextId)
            == WithShiftTable(ShiftSetup(Table(old(store.rows), old(store.nextId)), toShift, plan, dateTimeToStartCreation),
                              weeks, rules, slot)
  {
    SaveEdited(store, slot);
    ShiftSlots(store, weeks, rules, listSlotToShift, plan);
    if !plan.extend {
      var listSlotsToAdd := GenerateListSlotToCreateAfterATime(weeks, rules, dateTimeToStartCreation, slot.idForm);
      var _ := CreateListSlot(store, listSlotsToAdd);
    }
  }

  // ---------------------------------------------------------------------------------
  // updateSlot

  /** What updateSlot dereferences: the rules that classify the slot, then what the
      branch taken dereferences. */
  predicate UpdateDefined(t: Table, weeks: seq<WeekDefinition>, rules: seq<ReservationRule>, closingDays: seq<int>,
                          slot: Slot, endingTimeHasChanged: bool, previousEndingTime: int, shiftSlot: bool)
  {
    && Classifiable(weeks, rules, slot.date)
    && var s := Respecify(weeks, rules, slot);
       if !endingTimeHasChanged then s.id != 0 ==> FindSlot(t.rows, s.id).Some?
       else if !shiftSlot then WithoutShiftDefined(t, weeks, rules, s)
       else WithShiftDefined(t, weeks, rules, closingDays, s, previousEndingTime)
  }

  /** The table after updateSlot: the slot classified again, then saved after its counters
      are reconciled when its end did not move, or edited without or with the shift of the
      slots after it when it did. The counter never moves back, so no key is handed out
      twice; when the end did not move, only a slot without a key adds a row. */
  function UpdatedTable(t: Table, weeks: seq<WeekDefinition>, rules: seq<ReservationRule>, closingDays: seq<int>,
                        slot: Slot, endingTimeHasChanged: bool, previousEndingTime: int, shiftSlot: bool): (r: Table)
    requires UpdateDefined(t, weeks, rules, closingDays, slot, endingTimeHasChanged, previousEndingTime, shiftSlot)
    ensures t.nextId <= r.nextId
    ensures !endingTimeHasChanged ==>
      && r.nextId == t.nextId + (if slot.id == 0 then 1 else 0)
      && |r.rows| == |t.rows| + (if slot.id == 0 then 1 else 0)
  {
    var s := Respecify(weeks, rules, slot);
    if !endingTimeHasChanged then Save(t, Reconciled(t, s))
    else if !shiftSlot then WithoutShiftTable(t, weeks, rules, s)
    else WithShiftTable(SetupShift(t, weeks, rules, closingDays, s, previousEndingTime), weeks, rules, s)
  }

  /** updateSlot. */
  method UpdateSlot(store: SlotStore, weeks: seq<WeekDefinition>, rules: seq<ReservationRule>, closingDays: seq<int>,
                    slot: Slot, endingTimeHasChanged: bool, previousEndingTime: int, shiftSlot: bool)
    requires store.Valid()
    requires UpdateDefined(Table(store.rows, store.nextId), weeks, rules, closingDays, slot, endingTimeHasChanged,
                           previousEndingTime, shiftSlot)
    modifies store
    ensures store.Valid()
    ensures Table(store.rows, store.nextId)
            == UpdatedTable(Table(old(store.rows), old(store.nextId)), weeks, rules, closingDays, slot,
                            endingTimeHasChanged, previousEndingTime, shiftSlot)
  {
    var s := slot.(isSpecific := IsSpecificSlotOfDay(weeks, rules, slot));
    assert s == Respecify(weeks, rules, slot);
    if endingTimeHasChanged {
      if !shiftSlot {
        UpdateSlotWithoutShift(store, weeks, rules, s);
      } else {
        UpdateSlotWithShift(store, weeks, rules, closingDays, s, previousEndingTime);
      }
    } else {
      SaveEdited(store, s);
    }
  }
}
