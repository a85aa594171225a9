/** The lookups the slot engine makes in its rule collaborators: the
    "closest date in the past" resolution of week definitions and reservation
    rules, and the queries on working days and their time-slot templates.
    The services that own these lookups (Utilities, WeekDefinitionService,
    ReservationRuleService, WorkingDayService, TimeSlotService) are not part of
    this model; each function below states the meaning the slot engine relies on. */
module RuleLookup {
  import opened SlotTypes

  /** Utilities.getClosestDateInPast: the greatest date of the list that is not after `target`. */
  function ClosestDateInPast(dates: seq<int>, target: int): (r: Option<int>)
    ensures r.Some? ==> r.value in dates && r.value <= target
    ensures r.Some? ==> forall d :: d in dates && d <= target ==> d <= r.value
    ensures r.None? <==> forall d :: d in dates ==> d > target
  {
    if dates == [] then None
    else
      assert dates == [dates[0]] + dates[1..];
      var rest := ClosestDateInPast(dates[1..], target);
      if dates[0] > target then rest
      else if rest.Some? && rest.value >= dates[0] then rest
      else Some(dates[0])
  }

  /** The earliest date of the list (`sorted().findFirst()`), None for an empty list. */
  function FirstDate(dates: seq<int>): (r: Option<int>)
    ensures r.None? <==> dates == []
    ensures r.Some? ==> r.value in dates && forall d :: d in dates ==> r.value <= d
  {
    if dates == [] then None
    else
      assert dates == [dates[0]] + dates[1..];
      var rest := FirstDate(dates[1..]);
      if rest.Some? && rest.value < dates[0] then rest else Some(dates[0])
  }

  function WeekDates(weeks: seq<WeekDefinition>): (r: seq<int>)
    ensures |r| == |weeks|
    ensures forall i :: 0 <= i < |weeks| ==> r[i] == weeks[i].dateOfApply
  {
    if weeks == [] then [] else [weeks[0].dateOfApply] + WeekDates(weeks[1..])
  }

  function RuleDates(rules: seq<ReservationRule>): (r: seq<int>)
    ensures |r| == |rules|
    ensures forall i :: 0 <= i < |rules| ==> r[i] == rules[i].dateOfApply
  {
    if rules == [] then [] else [rules[0].dateOfApply] + RuleDates(rules[1..])
  }

  /** `map.get(date)` on the week definitions keyed by their date of apply. */
  function WeekWithDate(weeks: seq<WeekDefinition>, date: int): (r: Option<WeekDefinition>)
    ensures r.Some? ==> r.value in weeks && r.value.dateOfApply == date
    ensures r.None? <==> forall w :: w in weeks ==> w.dateOfApply != date
  {
    if weeks == [] then None
    else if weeks[0].dateOfApply == date then Some(weeks[0])
    else WeekWithDate(weeks[1..], date)
  }

  function RuleWithDate(rules: seq<ReservationRule>, date: int): (r: Option<ReservationRule>)
    ensures r.Some? ==> r.value in rules && r.value.dateOfApply == date
    ensures r.None? <==> forall x :: x in rules ==> x.dateOfApply != date
  {
    if rules == [] then None
    else if rules[0].dateOfApply == date then Some(rules[0])
    else RuleWithDate(rules[1..], date)
  }

  /** The week definition in force on `date`: the one applied most recently, on or before it. */
  function EffectiveWeekDefinition(weeks: seq<WeekDefinition>, date: int): (r: Option<WeekDefinition>)
    ensures r.Some? ==> r.value in weeks && r.value.dateOfApply <= date
    ensures r.Some? ==> forall w :: w in weeks && w.dateOfApply <= date ==> w.dateOfApply <= r.value.dateOfApply
    ensures r.None? <==> forall w :: w in weeks ==> w.dateOfApply > date
  {
    var dates := WeekDates(weeks);
    assert forall w :: w in weeks ==> w.dateOfApply in dates by {
      forall w | w in weeks ensures w.dateOfApply in dates {
        var i :| 0 <= i < |weeks| && weeks[i] == w;
        assert dates[i] == w.dateOfApply;
      }
    }
    var closest := ClosestDateInPast(dates, date);
    if closest.None? then None
    else
      var i :| 0 <= i < |dates| && dates[i] == closest.value;
      assert weeks[i].dateOfApply == closest.value;
      WeekWithDate(weeks, closest.value)
  }

  /** The reservation rule in force on `date`. */
  function EffectiveReservationRule(rules: seq<ReservationRule>, date: int): (r: Option<ReservationRule>)
    ensures r.Some? ==> r.value in rules && r.value.dateOfApply <= date
    ensures r.Some? ==> forall x :: x in rules && x.dateOfApply <= date ==> x.dateOfApply <= r.value.dateOfApply
    ensures r.None? <==> forall x :: x in rules ==> x.dateOfApply > date
  {
    var dates := RuleDates(rules);
    assert forall x :: x in rules ==> x.dateOfApply in dates by {
      forall x | x in rules ensures x.dateOfApply in dates {
        var i :| 0 <= i < |rules| && rules[i] == x;
        assert dates[i] == x.dateOfApply;
      }
    }
    var closest := ClosestDateInPast(dates, date);
    if closest.None? then None
    else
      var i :| 0 <= i < |dates| && dates[i] == closest.value;
      assert rules[i].dateOfApply == closest.value;
      RuleWithDate(rules, closest.value)
  }

  /** WorkingDayService.getWorkingDayOfDayOfWeek: the working day for a day of the week, if any. */
  function WorkingDayOfDayOfWeek(workingDays: seq<WorkingDay>, dayOfWeek: int): (r: Option<WorkingDay>)
    ensures r.Some? ==> r.value in workingDays && r.value.dayOfWeek == dayOfWeek
    ensures r.None? <==> forall wd :: wd in workingDays ==> wd.dayOfWeek != dayOfWeek
  {
    if workingDays == [] then None
    else if workingDays[0].dayOfWeek == dayOfWeek then Some(workingDays[0])
    else WorkingDayOfDayOfWeek(workingDays[1..], dayOfWeek)
  }

  /** The earliest starting time of a non-empty list of templates. */
  function MinStartingTime(timeSlots: seq<TimeSlot>): (r: int)
    requires timeSlots != []
    ensures exists t :: t in timeSlots && t.startingTime == r
    ensures forall t :: t in timeSlots ==> r <= t.startingTime
  {
    if |timeSlots| == 1 then timeSlots[0].startingTime
    else
      var rest := MinStartingTime(timeSlots[1..]);
      if rest < timeSlots[0].startingTime then rest else timeSlots[0].startingTime
  }

  /** The latest ending time of a non-empty list of templates. */
  function MaxEndingTime(timeSlots: seq<TimeSlot>): (r: int)
    requires timeSlots != []
    ensures exists t :: t in timeSlots && t.endingTime == r
    ensures forall t :: t in timeSlots ==> t.endingTime <= r
  {
    if |timeSlots| == 1 then timeSlots[0].endingTime
    else
      var rest := MaxEndingTime(timeSlots[1..]);
      if rest > timeSlots[0].endingTime then rest else timeSlots[0].endingTime
  }

  /** The shortest template duration of a non-empty list of templates. */
  function MinDuration(timeSlots: seq<TimeSlot>): (r: int)
    requires timeSlots != []
    ensures exists t :: t in timeSlots && t.endingTime - t.startingTime == r
    ensures forall t :: t in timeSlots ==> r <= t.endingTime - t.startingTime
  {
    if |timeSlots| == 1 then timeSlots[0].endingTime - timeSlots[0].startingTime
    else
      var rest := MinDuration(timeSlots[1..]);
      var here := timeSlots[0].endingTime - timeSlots[0].startingTime;
      if rest < here then rest else here
  }

  /** All templates of a list of working days, in order. */
  function AllTimeSlots(workingDays: seq<WorkingDay>): (r: seq<TimeSlot>)
    ensures forall t :: t in r <==> exists wd :: wd in workingDays && t in wd.timeSlots
  {
    if workingDays == [] then [] else workingDays[0].timeSlots + AllTimeSlots(workingDays[1..])
  }

  /** getMinStartingTimeOfAListOfWorkingDay: the earliest start of any template of any of
      the working days; null (None) when there is no template at all. */
  function MinStartingTimeOfWorkingDays(workingDays: seq<WorkingDay>): (r: Option<int>)
    ensures r.None? <==> forall wd :: wd in workingDays ==> wd.timeSlots == []
    ensures r.Some? ==> exists t :: t in AllTimeSlots(workingDays) && t.startingTime == r.value
    ensures r.Some? ==> forall t :: t in AllTimeSlots(workingDays) ==> r.value <= t.startingTime
  {
    NoTemplates(workingDays);
    var all := AllTimeSlots(workingDays);
    if all == [] then None else Some(MinStartingTime(all))
  }

  /** getMaxEndingTimeOfAListOfWorkingDay: the latest end of any template of any of the
      working days; None when there is no template at all. */
  function MaxEndingTimeOfWorkingDays(workingDays: seq<WorkingDay>): (r: Option<int>)
    ensures r.None? <==> forall wd :: wd in workingDays ==> wd.timeSlots == []
    ensures r.Some? ==> exists t :: t in AllTimeSlots(workingDays) && t.endingTime == r.value
    ensures r.Some? ==> forall t :: t in AllTimeSlots(workingDays) ==> t.endingTime <= r.value
  {
    NoTemplates(workingDays);
    var all := AllTimeSlots(workingDays);
    if all == [] then None else Some(MaxEndingTime(all))
  }

  /** getMinDurationTimeSlotOfAListOfWorkingDay: the shortest duration of any template of
      any of the working days; 0 when there is no template at all. */
  function MinDurationOfWorkingDays(workingDays: seq<WorkingDay>): (r: int)
    ensures (forall wd :: wd in workingDays ==> wd.timeSlots == []) ==> r == 0
    ensures AllTimeSlots(workingDays) != [] ==>
      && (exists t :: t in AllTimeSlots(workingDays) && t.endingTime - t.startingTime == r)
      && forall t :: t in AllTimeSlots(workingDays) ==> r <= t.endingTime - t.startingTime
  {
    NoTemplates(workingDays);
    var all := AllTimeSlots(workingDays);
    if all == [] then 0 else MinDuration(all)
  }

  /** The working days have no template at all exactly when each of them has none. */
  lemma NoTemplates(workingDays: seq<WorkingDay>)
    ensures AllTimeSlots(workingDays) == [] <==> forall wd :: wd in workingDays ==> wd.timeSlots == []
  {
    if AllTimeSlots(workingDays) != [] {
      assert AllTimeSlots(workingDays)[0] in AllTimeSlots(workingDays);
    }
  }

  /** In a well-formed week every template lasts at least a minute, so its shortest duration is positive. */
  lemma {:induction false} MinDurationPositive(timeSlots: seq<TimeSlot>)
    requires timeSlots != []
    requires forall t :: t in timeSlots ==> ValidTimeSlot(t)
    ensures MinDuration(timeSlots) > 0
  {
    assert ValidTimeSlot(timeSlots[0]);
    if |timeSlots| > 1 {
      assert forall t :: t in timeSlots[1..] ==> t in timeSlots;
      MinDurationPositive(timeSlots[1..]);
    }
  }

  /** The templates of every working day of a well-formed week are well formed. */
  lemma AllTimeSlotsValid(w: WeekDefinition)
    requires ValidWeekDefinition(w)
    ensures forall t :: t in AllTimeSlots(w.workingDays) ==> ValidTimeSlot(t)
  {
  }

  /** TimeSlotService.getTimeSlotInListOfTimeSlotWithStartingTime: the first template starting at `time`. */
  function TimeSlotWithStartingTime(timeSlots: seq<TimeSlot>, time: int): (r: Option<TimeSlot>)
    ensures r.Some? ==> r.value in timeSlots && r.value.startingTime == time
    ensures r.None? <==> forall t :: t in timeSlots ==> t.startingTime != time
  {
    if timeSlots == [] then None
    else if timeSlots[0].startingTime == time then Some(timeSlots[0])
    else TimeSlotWithStartingTime(timeSlots[1..], time)
  }

  /** TimeSlotService.getNextTimeSlotsInAListOfTimeSlotAfterALocalTime: the templates starting at or after `time`. */
  function TimeSlotsFrom(timeSlots: seq<TimeSlot>, time: int): (r: seq<TimeSlot>)
    ensures forall t :: t in r <==> t in timeSlots && t.startingTime >= time
  {
    if timeSlots == [] then []
    else (if timeSlots[0].startingTime >= time then [timeSlots[0]] else []) + TimeSlotsFrom(timeSlots[1..], time)
  }
}
