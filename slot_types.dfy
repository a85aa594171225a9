/** Data model of the slot engine.

    Times are minutes of the day, dates are epoch-day indices and a date-time is
    `date * MinutesPerDay + time`, i.e. minutes since 1970-01-01T00:00. Java's
    `LocalDate`, `LocalTime` and `LocalDateTime` map onto these integers. */
module SlotTypes {

  datatype Option<+T> = None | Some(value: T)

  /** Number of minutes in a day: a `LocalTime` is a minute in [0, MinutesPerDay). */
  const MinutesPerDay: int := 1440

  /** `LocalDateTime.toLocalDate`: floor division, also for dates before the epoch. */
  function DateOf(dateTime: int): int
  {
    dateTime / MinutesPerDay
  }

  /** `LocalDateTime.toLocalTime`. */
  function TimeOf(dateTime: int): (t: int)
    ensures 0 <= t < MinutesPerDay
  {
    dateTime % MinutesPerDay
  }

  /** `LocalDate.atTime`. */
  function AtTime(date: int, time: int): int
  {
    date * MinutesPerDay + time
  }

  /** A date-time splits into its date and its time and is rebuilt from them. */
  lemma AtTimeParts(date: int, time: int)
    requires 0 <= time < MinutesPerDay
    ensures DateOf(AtTime(date, time)) == date
    ensures TimeOf(AtTime(date, time)) == time
  {
    var dt := AtTime(date, time);
    assert dt == date * MinutesPerDay + time;
    assert dt / MinutesPerDay == date by {
      assert date * MinutesPerDay <= dt < (date + 1) * MinutesPerDay;
    }
  }

  lemma DateTimeParts(dateTime: int)
    ensures AtTime(DateOf(dateTime), TimeOf(dateTime)) == dateTime
  {
  }

  /** `LocalDate.getDayOfWeek` as its ISO number (1 = Monday ... 7 = Sunday);
      epoch day 0, 1970-01-01, was a Thursday. */
  function DayOfWeek(date: int): (d: int)
    ensures 1 <= d <= 7
  {
    (date + 3) % 7 + 1
  }

  /** A time-slot template of a working day. A `maxCapacity` of 0 means
      "take the reservation rule's capacity". */
  datatype TimeSlot = TimeSlot(startingTime: int, endingTime: int, isOpen: bool, maxCapacity: int)

  /** The opening hours of one day of the week under a week definition. */
  datatype WorkingDay = WorkingDay(dayOfWeek: int, timeSlots: seq<TimeSlot>)

  /** A dated version of the weekly opening pattern. */
  datatype WeekDefinition = WeekDefinition(dateOfApply: int, workingDays: seq<WorkingDay>)

  /** A dated version of the booking policy; only the per-slot capacity matters here. */
  datatype ReservationRule = ReservationRule(dateOfApply: int, maxCapacityPerSlot: int)

  /** A period of time, both ends as date-times. */
  datatype Period = Period(startingDateTime: int, endingDateTime: int)

  /** The unit of booking. `id == 0` means "not yet persisted". `date`,
      `startingTime` and `endingTime` are the DTO's derived fields that
      `AddDateAndTimeToSlot` recomputes from the two date-times. */
  datatype Slot = Slot(
    id: int,
    idForm: int,
    startingDateTime: int,
    endingDateTime: int,
    date: int,
    startingTime: int,
    endingTime: int,
    maxCapacity: int,
    nbRemainingPlaces: int,
    nbPotentialRemainingPlaces: int,
    nbPlacesTaken: int,
    isOpen: bool,
    isSpecific: bool)

  /** The derived fields agree with the two date-times. */
  predicate DerivedFieldsAgree(s: Slot)
  {
    && s.date == DateOf(s.startingDateTime)
    && s.startingTime == TimeOf(s.startingDateTime)
    && s.endingTime == TimeOf(s.endingDateTime)
  }

  /** The slot starts before it ends and both ends lie on the same date. */
  predicate WithinOneDay(s: Slot)
  {
    s.startingDateTime < s.endingDateTime && DateOf(s.startingDateTime) == DateOf(s.endingDateTime)
  }

  /** Recomputes the derived date and time fields from the two date-times. */
  function AddDateAndTimeToSlot(s: Slot): (r: Slot)
    ensures DerivedFieldsAgree(r)
    ensures r.(date := s.date, startingTime := s.startingTime, endingTime := s.endingTime) == s
    ensures DerivedFieldsAgree(s) ==> r == s
  {
    s.(date := DateOf(s.startingDateTime),
       startingTime := TimeOf(s.startingDateTime),
       endingTime := TimeOf(s.endingDateTime))
  }

  /** A fresh, not yet persisted slot with all its values. */
  function BuildSlot(idForm: int, period: Period, maxCapacity: int, nbRemainingPlaces: int,
                     nbPotentialRemainingPlaces: int, nbPlacesTaken: int,
                     isOpen: bool, isSpecific: bool): (r: Slot)
    ensures r.id == 0 && r.idForm == idForm
    ensures r.startingDateTime == period.startingDateTime && r.endingDateTime == period.endingDateTime
    ensures r.maxCapacity == maxCapacity && r.nbRemainingPlaces == nbRemainingPlaces
    ensures r.nbPotentialRemainingPlaces == nbPotentialRemainingPlaces && r.nbPlacesTaken == nbPlacesTaken
    ensures r.isOpen == isOpen && r.isSpecific == isSpecific
    ensures DerivedFieldsAgree(r)
  {
    AddDateAndTimeToSlot(Slot(0, idForm, period.startingDateTime, period.endingDateTime, 0, 0, 0,
                              maxCapacity, nbRemainingPlaces, nbPotentialRemainingPlaces, nbPlacesTaken,
                              isOpen, isSpecific))
  }

  /** A template is a well-formed span of one day. */
  predicate ValidTimeSlot(t: TimeSlot)
  {
    0 <= t.startingTime < t.endingTime < MinutesPerDay
  }

  /** Every working day of the week has at least one template, and all templates are well formed. */
  predicate ValidWeekDefinition(w: WeekDefinition)
  {
    forall wd :: wd in w.workingDays ==>
      wd.timeSlots != [] && forall t :: t in wd.timeSlots ==> ValidTimeSlot(t)
  }

  predicate ValidWeekDefinitions(weeks: seq<WeekDefinition>)
  {
    forall w :: w in weeks ==> ValidWeekDefinition(w)
  }
}
