/** The "specific" classifier: a slot is specific when no template of its day
    has the same start, end, open flag and capacity (SlotService.isSpecificSlot). */
module Specific {
  import opened SlotTypes
  import opened RuleLookup

  /** The template has the slot's start and end time, open flag and capacity. */
  predicate SameShape(t: TimeSlot, slot: Slot)
  {
    && t.startingTime == TimeOf(slot.startingDateTime)
    && t.endingTime == TimeOf(slot.endingDateTime)
    && t.isOpen == slot.isOpen
    && t.maxCapacity == slot.maxCapacity
  }

  /** The stream filter of isSpecificSlot: the templates that match the slot. */
  function MatchingTimeSlots(timeSlots: seq<TimeSlot>, slot: Slot): (r: seq<TimeSlot>)
    ensures forall t :: t in r <==> t in timeSlots && SameShape(t, slot)
  {
    if timeSlots == [] then []
    else (if SameShape(timeSlots[0], slot) then [timeSlots[0]] else []) + MatchingTimeSlots(timeSlots[1..], slot)
  }

  /** isSpecificSlot(slot, workingDay, listTimeSlot, nMaxCapacity). Without a working
      day the reference is the rule's closed default slot; with one, it is the
      day's list of templates. */
  function IsSpecificSlot(slot: Slot, workingDay: Option<WorkingDay>, timeSlots: seq<TimeSlot>,
                          maxCapacity: int): (r: bool)
    ensures workingDay.None? ==> (!r <==> !slot.isOpen && slot.maxCapacity == maxCapacity)
    ensures workingDay.Some? ==> (!r <==> exists t :: t in timeSlots && SameShape(t, slot))
  {
    if workingDay.None? then
      !(!slot.isOpen && slot.maxCapacity == maxCapacity)
    else
      var matching := MatchingTimeSlots(timeSlots, slot);
      assert matching != [] ==> matching[0] in matching;
      matching == []
  }

  /** The classification looks at the start, end, open flag and capacity only, never at
      the specific flag it is about to set. */
  lemma SpecificFlagIgnored(slot: Slot, workingDay: Option<WorkingDay>, timeSlots: seq<TimeSlot>,
                            maxCapacity: int, flag: bool)
    ensures IsSpecificSlot(slot.(isSpecific := flag), workingDay, timeSlots, maxCapacity)
            == IsSpecificSlot(slot, workingDay, timeSlots, maxCapacity)
  {
    assert MatchingTimeSlots(timeSlots, slot.(isSpecific := flag)) == MatchingTimeSlots(timeSlots, slot) by {
      SameShapeListsAgree(timeSlots, slot, slot.(isSpecific := flag));
    }
  }

  /** Two slots of the same shape for every template match the same templates. */
  lemma {:induction false} SameShapeListsAgree(timeSlots: seq<TimeSlot>, a: Slot, b: Slot)
    requires a.startingDateTime == b.startingDateTime && a.endingDateTime == b.endingDateTime
    requires a.isOpen == b.isOpen && a.maxCapacity == b.maxCapacity
    ensures MatchingTimeSlots(timeSlots, a) == MatchingTimeSlots(timeSlots, b)
  {
    if timeSlots != [] {
      SameShapeListsAgree(timeSlots[1..], a, b);
    }
  }

  /** The templates the one-argument isSpecificSlot compares against: those of the
      working day of the slot's day of week, none without a working day. */
  function TimeSlotsOfWorkingDay(workingDay: Option<WorkingDay>): seq<TimeSlot>
  {
    if workingDay.Some? then workingDay.value.timeSlots else []
  }

  /** isSpecificSlot(slot): resolves the week definition and the reservation rule in
      force on the slot's date and classifies against them. The source dereferences
      both without a null check, hence the two requires. A slot is ordinary on its day
      exactly when it is the rule's closed default slot on a day without a working day,
      or has the shape of one of the working day's templates. */
  function IsSpecificSlotOfDay(weeks: seq<WeekDefinition>, rules: seq<ReservationRule>, slot: Slot): (r: bool)
    requires EffectiveWeekDefinition(weeks, slot.date).Some?
    requires EffectiveReservationRule(rules, slot.date).Some?
    ensures
      var week := EffectiveWeekDefinition(weeks, slot.date).value;
      var rule := EffectiveReservationRule(rules, slot.date).value;
      var workingDay := WorkingDayOfDayOfWeek(week.workingDays, DayOfWeek(slot.date));
      && (workingDay.None? ==> (!r <==> !slot.isOpen && slot.maxCapacity == rule.maxCapacityPerSlot))
      && (workingDay.Some? ==> (!r <==> exists t :: t in workingDay.value.timeSlots && SameShape(t, slot)))
  {
    var week := EffectiveWeekDefinition(weeks, slot.date).value;
    var rule := EffectiveReservationRule(rules, slot.date).value;
    var workingDay := WorkingDayOfDayOfWeek(week.workingDays, DayOfWeek(slot.date));
    IsSpecificSlot(slot, workingDay, TimeSlotsOfWorkingDay(workingDay), rule.maxCapacityPerSlot)
  }

  /** The flag a slot carries does not change its classification against the rules in
      force on its date. */
  lemma SpecificOfDayFlagIgnored(weeks: seq<WeekDefinition>, rules: seq<ReservationRule>, slot: Slot, flag: bool)
    requires EffectiveWeekDefinition(weeks, slot.date).Some?
    requires EffectiveReservationRule(rules, slot.date).Some?
    ensures IsSpecificSlotOfDay(weeks, rules, slot.(isSpecific := flag)) == IsSpecificSlotOfDay(weeks, rules, slot)
  {
    var week := EffectiveWeekDefinition(weeks, slot.date).value;
    var rule := EffectiveReservationRule(rules, slot.date).value;
    var workingDay := WorkingDayOfDayOfWeek(week.workingDays, DayOfWeek(slot.date));
    SpecificFlagIgnored(slot, workingDay, TimeSlotsOfWorkingDay(workingDay), rule.maxCapacityPerSlot, flag);
  }

  /** No two templates of a day share a starting time or an ending time. */
  predicate DistinctBounds(timeSlots: seq<TimeSlot>)
  {
    forall i, j :: 0 <= i < |timeSlots| && 0 <= j < |timeSlots| && i != j ==>
      timeSlots[i].startingTime != timeSlots[j].startingTime && timeSlots[i].endingTime != timeSlots[j].endingTime
  }

  /** A slot that copies one of its day's templates is not specific; in a day whose
      templates have distinct bounds, changing any one of the four compared
      attributes of it makes it specific. */
  lemma {:induction false} EditingTemplateSlotMakesSpecific(
    slot: Slot, workingDay: WorkingDay, k: int, maxCapacity: int,
    newStart: int, newEnd: int, newCapacity: int)
    requires 0 <= k < |workingDay.timeSlots|
    requires DistinctBounds(workingDay.timeSlots)
    requires SameShape(workingDay.timeSlots[k], slot)
    requires TimeOf(newStart) != TimeOf(slot.startingDateTime)
    requires TimeOf(newEnd) != TimeOf(slot.endingDateTime)
    requires newCapacity != slot.maxCapacity
    ensures !IsSpecificSlot(slot, Some(workingDay), workingDay.timeSlots, maxCapacity)
    ensures IsSpecificSlot(slot.(isOpen := !slot.isOpen), Some(workingDay), workingDay.timeSlots, maxCapacity)
    ensures IsSpecificSlot(slot.(maxCapacity := newCapacity), Some(workingDay), workingDay.timeSlots, maxCapacity)
    ensures IsSpecificSlot(slot.(startingDateTime := newStart), Some(workingDay), workingDay.timeSlots, maxCapacity)
    ensures IsSpecificSlot(slot.(endingDateTime := newEnd), Some(workingDay), workingDay.timeSlots, maxCapacity)
  {
    var ts := workingDay.timeSlots;
    assert ts[k] in ts;
    forall t | t in ts
      ensures !SameShape(t, slot.(isOpen := !slot.isOpen))
      ensures !SameShape(t, slot.(maxCapacity := newCapacity))
      ensures !SameShape(t, slot.(startingDateTime := newStart))
      ensures !SameShape(t, slot.(endingDateTime := newEnd))
    {
      var j :| 0 <= j < |ts| && ts[j] == t;
      if j != k {
        assert t.startingTime != ts[k].startingTime && t.endingTime != ts[k].endingTime;
      }
    }
  }
}
