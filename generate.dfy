/** The figures of a date that the slot service reads from the rules in force on it, and
    the closed slots it generates to fill a day from a given time on
    (SlotService.generateListSlotToCreateAfterATime). */
module Generate {
  import opened SlotTypes
  import opened RuleLookup
  import opened Specific
  import opened Materialise

  /** The rules in force on `date` are all there, as the service dereferences them: a
      reservation rule, a week definition, and, on a date without a working day, at least
      one template in the week. */
  predicate DayIsDefined(weeks: seq<WeekDefinition>, rules: seq<ReservationRule>, date: int)
  {
    && ValidWeekDefinitions(weeks)
    && EffectiveReservationRule(rules, date).Some?
    && EffectiveWeekDefinition(weeks, date).Some?
    && (WorkingDayOfDayOfWeek(EffectiveWeekDefinition(weeks, date).value.workingDays, DayOfWeek(date)).None? ==>
          MaxEndingTimeOfWorkingDays(EffectiveWeekDefinition(weeks, date).value.workingDays).Some?)
  }

  /** The working day of `date` under the week definition in force on it. */
  function DayWorkingDay(weeks: seq<WeekDefinition>, date: int): Option<WorkingDay>
    requires EffectiveWeekDefinition(weeks, date).Some?
  {
    WorkingDayOfDayOfWeek(EffectiveWeekDefinition(weeks, date).value.workingDays, DayOfWeek(date))
  }

  /** The templates of the working day of `date`, none without one. */
  function DayTimeSlots(weeks: seq<WeekDefinition>, date: int): seq<TimeSlot>
    requires EffectiveWeekDefinition(weeks, date).Some?
  {
    TimeSlotsOfWorkingDay(DayWorkingDay(weeks, date))
  }

  /** The per-slot capacity of the reservation rule in force on `date`. */
  function DayCapacity(rules: seq<ReservationRule>, date: int): int
    requires EffectiveReservationRule(rules, date).Some?
  {
    EffectiveReservationRule(rules, date).value.maxCapacityPerSlot
  }

  /** The end of the day: the latest end of the day's templates on a working day, the
      latest end over the whole week otherwise. */
  function DayEndTime(weeks: seq<WeekDefinition>, rules: seq<ReservationRule>, date: int): (r: int)
    requires DayIsDefined(weeks, rules, date)
    ensures 0 <= r < MinutesPerDay
    ensures DayWorkingDay(weeks, date).Some? ==>
      (exists t :: t in DayTimeSlots(weeks, date) && t.endingTime == r)
      && forall t :: t in DayTimeSlots(weeks, date) ==> t.endingTime <= r
    ensures DayWorkingDay(weeks, date).None? ==>
      var all := AllTimeSlots(EffectiveWeekDefinition(weeks, date).value.workingDays);
      (exists t :: t in all && t.endingTime == r) && forall t :: t in all ==> t.endingTime <= r
  {
    var week := EffectiveWeekDefinition(weeks, date).value;
    var workingDay := DayWorkingDay(weeks, date);
    if workingDay.Some? then
      WorkingDayBounds(week, workingDay.value);
      MaxEndingTime(workingDay.value.timeSlots)
    else
      WeekBounds(week);
      MaxEndingTimeOfWorkingDays(week.workingDays).value
  }

  /** The length of the generated slots: the shortest template of the working day, or of
      the whole week on a date without a working day. */
  function DayMinDuration(weeks: seq<WeekDefinition>, rules: seq<ReservationRule>, date: int): (r: int)
    requires DayIsDefined(weeks, rules, date)
    ensures r > 0
    ensures DayWorkingDay(weeks, date).Some? ==>
      (exists t :: t in DayTimeSlots(weeks, date) && t.endingTime - t.startingTime == r)
      && forall t :: t in DayTimeSlots(weeks, date) ==> r <= t.endingTime - t.startingTime
  {
    var week := EffectiveWeekDefinition(weeks, date).value;
    var workingDay := DayWorkingDay(weeks, date);
    if workingDay.Some? then
      WorkingDayBounds(week, workingDay.value);
      MinDurationPositive(workingDay.value.timeSlots);
      MinDuration(workingDay.value.timeSlots)
    else
      WeekBounds(week);
      MinDurationOfWorkingDays(week.workingDays)
  }

  /** A slot as the generation builds it, whatever its bounds: not yet persisted, of the
      form, closed, nothing taken, the rule's capacity on all three counters, its derived
      fields filled in, and specific unless it matches a template of the day (or, without
      a working day, the closed default). */
  predicate IsGeneratedSlotOf(idForm: int, maxCapacity: int, workingDay: Option<WorkingDay>,
                              timeSlots: seq<TimeSlot>, s: Slot)
  {
    && s.id == 0 && s.idForm == idForm && !s.isOpen && s.nbPlacesTaken == 0
    && s.maxCapacity == maxCapacity && s.nbRemainingPlaces == maxCapacity
    && s.nbPotentialRemainingPlaces == maxCapacity
    && DerivedFieldsAgree(s)
    && (s.isSpecific <==> IsSpecificSlot(s, workingDay, timeSlots, maxCapacity))
  }

  /** One generated slot over [start, end]. */
  function GeneratedSlot(idForm: int, start: int, end: int, maxCapacity: int,
                         workingDay: Option<WorkingDay>, timeSlots: seq<TimeSlot>): (r: Slot)
    ensures r.startingDateTime == start && r.endingDateTime == end
  {
    var slot := BuildSlot(idForm, Period(start, end), maxCapacity, maxCapacity, maxCapacity, 0, false, true);
    slot.(isSpecific := IsSpecificSlot(slot, workingDay, timeSlots, maxCapacity))
  }

  /** A generated slot spans the bounds it was given and is built as the generation
      builds every slot. */
  lemma GeneratedSlotShape(idForm: int, start: int, end: int, maxCapacity: int,
                           workingDay: Option<WorkingDay>, timeSlots: seq<TimeSlot>)
    ensures var r := GeneratedSlot(idForm, start, end, maxCapacity, workingDay, timeSlots);
      r.startingDateTime == start && r.endingDateTime == end
      && IsGeneratedSlotOf(idForm, maxCapacity, workingDay, timeSlots, r)
  {
    var slot := BuildSlot(idForm, Period(start, end), maxCapacity, maxCapacity, maxCapacity, 0, false, true);
    SpecificFlagIgnored(slot, workingDay, timeSlots, maxCapacity, IsSpecificSlot(slot, workingDay, timeSlots, maxCapacity));
  }

  /** The slots the generation loop emits from `start`: slots of `duration` minutes while
      they fit before `dayEnd`, then one shorter slot up to `dayEnd` if time is left. */
  function GeneratedSlots(idForm: int, start: int, duration: int, dayEnd: int, maxCapacity: int,
                          workingDay: Option<WorkingDay>, timeSlots: seq<TimeSlot>): seq<Slot>
    requires duration > 0
    decreases dayEnd - start
  {
    if start + duration <= dayEnd then
      [GeneratedSlot(idForm, start, start + duration, maxCapacity, workingDay, timeSlots)]
        + GeneratedSlots(idForm, start + duration, duration, dayEnd, maxCapacity, workingDay, timeSlots)
    else if start < dayEnd then
      [GeneratedSlot(idForm, start, dayEnd, maxCapacity, workingDay, timeSlots)]
    else []
  }

  /** The generated slots tile [start, dayEnd]: nothing is generated when `start` is not
      before `dayEnd`; otherwise they start at `start`, each starts where the previous one
      ended, and the last ends exactly at `dayEnd`. */
  lemma {:induction false} GeneratedSlotsTile(idForm: int, start: int, duration: int, dayEnd: int, maxCapacity: int,
                                              workingDay: Option<WorkingDay>, timeSlots: seq<TimeSlot>)
    requires duration > 0
    ensures var r := GeneratedSlots(idForm, start, duration, dayEnd, maxCapacity, workingDay, timeSlots);
      && (r == [] <==> dayEnd <= start)
      && (r != [] ==> r[0].startingDateTime == start && r[|r| - 1].endingDateTime == dayEnd)
      && (forall i :: 0 < i < |r| ==> r[i].startingDateTime == r[i - 1].endingDateTime)
    decreases dayEnd - start
  {
    var r := GeneratedSlots(idForm, start, duration, dayEnd, maxCapacity, workingDay, timeSlots);
    if start + duration <= dayEnd {
      var head := GeneratedSlot(idForm, start, start + duration, maxCapacity, workingDay, timeSlots);
      var rest := GeneratedSlots(idForm, start + duration, duration, dayEnd, maxCapacity, workingDay, timeSlots);
      GeneratedSlotsTile(idForm, start + duration, duration, dayEnd, maxCapacity, workingDay, timeSlots);
      assert r == [head] + rest;
      forall i | 0 < i < |r| ensures r[i].startingDateTime == r[i - 1].endingDateTime {
        if i == 1 {
          assert r[1] == rest[0];
        } else {
          assert r[i] == rest[i - 1] && r[i - 1] == rest[i - 2];
        }
      }
    }
  }

  /** All generated slots but the last last exactly `duration`; every one lies inside
      [start, dayEnd] and lasts at most `duration`. */
  lemma {:induction false} GeneratedSlotsLengths(idForm: int, start: int, duration: int, dayEnd: int, maxCapacity: int,
                                                 workingDay: Option<WorkingDay>, timeSlots: seq<TimeSlot>)
    requires duration > 0
    ensures var r := GeneratedSlots(idForm, start, duration, dayEnd, maxCapacity, workingDay, timeSlots);
      && (forall i :: 0 <= i < |r| - 1 ==> r[i].endingDateTime - r[i].startingDateTime == duration)
      && (forall s :: s in r ==> 0 < s.endingDateTime - s.startingDateTime <= duration)
      && (forall s :: s in r ==> start <= s.startingDateTime && s.endingDateTime <= dayEnd)
    decreases dayEnd - start
  {
    var r := GeneratedSlots(idForm, start, duration, dayEnd, maxCapacity, workingDay, timeSlots);
    if start + duration <= dayEnd {
      var head := GeneratedSlot(idForm, start, start + duration, maxCapacity, workingDay, timeSlots);
      var rest := GeneratedSlots(idForm, start + duration, duration, dayEnd, maxCapacity, workingDay, timeSlots);
      GeneratedSlotsLengths(idForm, start + duration, duration, dayEnd, maxCapacity, workingDay, timeSlots);
      assert r == [head] + rest;
      assert head.startingDateTime == start && head.endingDateTime == start + duration;
      forall i | 0 < i < |r| - 1 ensures r[i].endingDateTime - r[i].startingDateTime == duration {
        assert r[i] == rest[i - 1];
      }
    }
  }

  /** Every generated slot is built as the generation builds slots. */
  lemma {:induction false} GeneratedSlotsBuilt(idForm: int, start: int, duration: int, dayEnd: int, maxCapacity: int,
                                               workingDay: Option<WorkingDay>, timeSlots: seq<TimeSlot>)
    requires duration > 0
    ensures forall s :: s in GeneratedSlots(idForm, start, duration, dayEnd, maxCapacity, workingDay, timeSlots) ==>
      IsGeneratedSlotOf(idForm, maxCapacity, workingDay, timeSlots, s)
    decreases dayEnd - start
  {
    if start + duration <= dayEnd {
      GeneratedSlotShape(idForm, start, start + duration, maxCapacity, workingDay, timeSlots);
      GeneratedSlotsBuilt(idForm, start + duration, duration, dayEnd, maxCapacity, workingDay, timeSlots);
    } else if start < dayEnd {
      GeneratedSlotShape(idForm, start, dayEnd, maxCapacity, workingDay, timeSlots);
    }
  }

  /** The slots generateListSlotToCreateAfterATime returns for a start date-time: none
      when the time is not before the end of its day, otherwise slots from that date-time
      to the end of the day. */
  function SlotsAfterATime(weeks: seq<WeekDefinition>, rules: seq<ReservationRule>, dateTime: int, idForm: int): (r: seq<Slot>)
    requires DayIsDefined(weeks, rules, DateOf(dateTime))
    ensures r == [] <==> DayEndTime(weeks, rules, DateOf(dateTime)) <= TimeOf(dateTime)
    ensures r != [] ==>
      r[0].startingDateTime == dateTime
      && r[|r| - 1].endingDateTime == AtTime(DateOf(dateTime), DayEndTime(weeks, rules, DateOf(dateTime)))
  {
    var date := DateOf(dateTime);
    DateTimeParts(dateTime);
    GeneratedSlotsTile(idForm, dateTime, DayMinDuration(weeks, rules, date), AtTime(date, DayEndTime(weeks, rules, date)),
                       DayCapacity(rules, date), DayWorkingDay(weeks, date), DayTimeSlots(weeks, date));
    GeneratedSlots(idForm, dateTime, DayMinDuration(weeks, rules, date), AtTime(date, DayEndTime(weeks, rules, date)),
                   DayCapacity(rules, date), DayWorkingDay(weeks, date), DayTimeSlots(weeks, date))
  }

  /** generateListSlotToCreateAfterATime: the closed slots from `dateTimeToStartCreation`
      to the end of its day. */
  method GenerateListSlotToCreateAfterATime(weeks: seq<WeekDefinition>, rules: seq<ReservationRule>,
                                            dateTimeToStartCreation: int, nIdForm: int)
    returns (listSlotToCreate: seq<Slot>)
    requires DayIsDefined(weeks, rules, DateOf(dateTimeToStartCreation))
    ensures listSlotToCreate == SlotsAfterATime(weeks, rules, dateTimeToStartCreation, nIdForm)
  {
    var dateOfCreation := DateOf(dateTimeToStartCreation);
    var nMaxCapacity := EffectiveReservationRule(rules, dateOfCreation).value.maxCapacityPerSlot;
    var weekDefinition := EffectiveWeekDefinition(weeks, dateOfCreation).value;
    var workingDay := WorkingDayOfDayOfWeek(weekDefinition.workingDays, DayOfWeek(dateOfCreation));
    var endingTimeOfTheDay: int;
    var listTimeSlot: seq<TimeSlot> := [];
    var nDurationSlot: int;
    if workingDay.Some? {
      WorkingDayBounds(weekDefinition, workingDay.value);
      endingTimeOfTheDay := MaxEndingTime(workingDay.value.timeSlots);
      nDurationSlot := MinDuration(workingDay.value.timeSlots);
      listTimeSlot := workingDay.value.timeSlots;
    } else {
      WeekBounds(weekDefinition);
      endingTimeOfTheDay := MaxEndingTimeOfWorkingDays(weekDefinition.workingDays).value;
      nDurationSlot := MinDurationOfWorkingDays(weekDefinition.workingDays);
    }
    assert nDurationSlot == DayMinDuration(weeks, rules, dateOfCreation);
    assert endingTimeOfTheDay == DayEndTime(weeks, rules, dateOfCreation);
    assert listTimeSlot == DayTimeSlots(weeks, dateOfCreation);
    var endingDateTimeOfTheDay := AtTime(dateOfCreation, endingTimeOfTheDay);
    listSlotToCreate := FillDayFrom(nIdForm, dateTimeToStartCreation, nDurationSlot, endingDateTimeOfTheDay,
                                    nMaxCapacity, workingDay, listTimeSlot);
  }

  /** The generation loop of generateListSlotToCreateAfterATime: slots of `duration`
      minutes from `start` on while they fit before `dayEnd`, then the shorter slot up to
      `dayEnd` when time is left. */
  method FillDayFrom(idForm: int, start: int, duration: int, dayEnd: int, maxCapacity: int,
                     workingDay: Option<WorkingDay>, timeSlots: seq<TimeSlot>)
    returns (listSlotToCreate: seq<Slot>)
    requires duration > 0
    ensures listSlotToCreate == GeneratedSlots(idForm, start, duration, dayEnd, maxCapacity, workingDay, timeSlots)
  {
    var startingDateTime := start;
    var endingDateTime := startingDateTime + duration;
    listSlotToCreate := [];
    while endingDateTime <= dayEnd
      invariant endingDateTime == startingDateTime + duration
      invariant GeneratedSlots(idForm, start, duration, dayEnd, maxCapacity, workingDay, timeSlots)
                == listSlotToCreate + GeneratedSlots(idForm, startingDateTime, duration, dayEnd, maxCapacity, workingDay, timeSlots)
      decreases dayEnd - startingDateTime
    {
      var slotToCreate := BuildClosedSlot(idForm, startingDateTime, endingDateTime, maxCapacity, workingDay, timeSlots);
      GeneratedSlotsStep(idForm, startingDateTime, duration, dayEnd, maxCapacity, workingDay, timeSlots);
      assert listSlotToCreate + ([slotToCreate] + GeneratedSlots(idForm, endingDateTime, duration, dayEnd, maxCapacity, workingDay, timeSlots))
          == (listSlotToCreate + [slotToCreate]) + GeneratedSlots(idForm, endingDateTime, duration, dayEnd, maxCapacity, workingDay, timeSlots);
      startingDateTime := endingDateTime;
      endingDateTime := startingDateTime + duration;
      listSlotToCreate := listSlotToCreate + [slotToCreate];
    }
    GeneratedSlotsStep(idForm, startingDateTime, duration, dayEnd, maxCapacity, workingDay, timeSlots);
    if startingDateTime < dayEnd && endingDateTime > dayEnd {
      var slotToCreate := BuildClosedSlot(idForm, startingDateTime, dayEnd, maxCapacity, workingDay, timeSlots);
      listSlotToCreate := listSlotToCreate + [slotToCreate];
    }
  }

  /** One step of the generation loop: builds the closed slot over [start, end] and sets
      its specific flag against the day's templates. */
  method BuildClosedSlot(idForm: int, start: int, end: int, maxCapacity: int,
                         workingDay: Option<WorkingDay>, timeSlots: seq<TimeSlot>)
    returns (slotToCreate: Slot)
    ensures slotToCreate == GeneratedSlot(idForm, start, end, maxCapacity, workingDay, timeSlots)
  {
    slotToCreate := BuildSlot(idForm, Period(start, end), maxCapacity, maxCapacity, maxCapacity, 0, false, true);
    slotToCreate := slotToCreate.(isSpecific := IsSpecificSlot(slotToCreate, workingDay, timeSlots, maxCapacity));
  }


  /** One unfolding of the generated slots, for the loop above. */
  lemma GeneratedSlotsStep(idForm: int, start: int, duration: int, dayEnd: int, maxCapacity: int,
                           workingDay: Option<WorkingDay>, timeSlots: seq<TimeSlot>)
    requires duration > 0
    ensures start + duration <= dayEnd ==>
      GeneratedSlots(idForm, start, duration, dayEnd, maxCapacity, workingDay, timeSlots)
      == [GeneratedSlot(idForm, start, start + duration, maxCapacity, workingDay, timeSlots)]
         + GeneratedSlots(idForm, start + duration, duration, dayEnd, maxCapacity, workingDay, timeSlots)
    ensures dayEnd < start + duration ==>
      GeneratedSlots(idForm, start, duration, dayEnd, maxCapacity, workingDay, timeSlots)
      == if start < dayEnd then [GeneratedSlot(idForm, start, dayEnd, maxCapacity, workingDay, timeSlots)] else []
  {
  }
}
