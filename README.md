# Slot planning of the appointment plugin, modelled in Dafny

This project models the slot service of the Lutece appointment plugin
(`SlotService`) and the four form checks of the form back office
(`AppointmentFormJspBean`).

A form offers slots: time intervals of a day with a capacity, a number of places taken
and two counters of remaining places. The planning of a form is built day by day from
its week definitions (which days are working days, with time-slot templates), its
reservation rules (the capacity per slot), its closing dates and the slots already
persisted. When a back-office user edits a slot, the service saves it. If its end moved,
the service also either fills the gap after it or shifts the following slots of the day.

## Representation

- **Time.** A date is a day number and a date-time is `date * 1440 + minute`
  (`SlotTypes.AtTime`). The day of the week follows the ISO numbering, Monday = 1.
- **Slot.** The slot DTO is the datatype `SlotTypes.Slot`. The Java code mutates it
  through setters; the model returns updated values instead.
- **Slot table.** `Store.SlotStore` is a class whose fields are the rows and the next key.
  It offers create, update, delete and find-by-key. `Persist.Table` is the same table as
  a value. Each state-changing method states its new table as a function of the old one,
  and lemmas state what those functions keep and change.
- **Rules.** The week definitions and reservation rules (maps keyed by date of apply in
  Java) are sequences with a `dateOfApply` field.
- **Loops.** Loops of the source are `while` loops in methods, proved against recursive
  functions:
  - the day loop and the two time walks of `buildListSlot`;
  - the generation loop of `generateListSlotToCreateAfterATime`;
  - the shift loop;
  - the deletion and creation loops;
  - the map construction.
- **Services.** Lookups the service delegates to other services are functions over those
  sequences: `Utilities`, `WorkingDayService`, `TimeSlotService`, `ClosingDayService`,
  `WeekDefinitionService` and `ReservationRuleService`. These classes are not part of this
  model; their behaviour is taken from how `SlotService` uses them.

## Model

| member | source | states |
|---|---|---|
| SlotTypes.TimeOf | src/java/fr/paris/lutece/plugins/appointment/service/SlotService.java:831-842 | the time of a date-time is a minute of the day, in [0, 1440) |
| SlotTypes.AtTimeParts | src/java/fr/paris/lutece/plugins/appointment/service/SlotService.java:831-842 | `atTime` and the date/time split round-trip: the date and minute of `AtTime(d, m)` are `d` and `m` |
| SlotTypes.DateTimeParts | src/java/fr/paris/lutece/plugins/appointment/service/SlotService.java:831-842 | every date-time is `AtTime` of its own date and time |
| SlotTypes.DayOfWeek | src/java/fr/paris/lutece/plugins/appointment/service/SlotService.java:243-250 | the ISO day of the week of a date, in 1..7 |
| SlotTypes.AddDateAndTimeToSlot | src/java/fr/paris/lutece/plugins/appointment/service/SlotService.java:831-842 | the date and the start and end times are derived from the start and end date-times; nothing else changes; a slot whose derived fields already agree is unchanged |
| SlotTypes.BuildSlot | src/java/fr/paris/lutece/plugins/appointment/service/SlotService.java:363-379 | the slot carries exactly the given form, period, counters and flags, has no key, and its derived fields agree with its period |
| Store.WithoutId | src/java/fr/paris/lutece/plugins/appointment/service/SlotService.java:895-900 | a row is left exactly when it was there with another key |
| Store.Replaced | src/java/fr/paris/lutece/plugins/appointment/service/SlotService.java:767-772 | same length; each row with the slot's key becomes the slot, the others stay |
| Store.FindSlot | src/java/fr/paris/lutece/plugins/appointment/service/SlotService.java:169-177 | None exactly when no row has the key; otherwise the result is a row with that key |
| Store.SlotStore.constructor | src/java/fr/paris/lutece/plugins/appointment/service/SlotService.java:868-873 | an empty table whose first key will be 1 |
| Store.SlotStore.FindById | src/java/fr/paris/lutece/plugins/appointment/service/SlotService.java:169-177 | found exactly when a row has the key, and then it is that row |
| Store.SlotStore.Create | src/java/fr/paris/lutece/plugins/appointment/service/SlotService.java:868-873 | the slot is appended under the next key, returned with it, and the counter moves on; the key invariant holds |
| Store.SlotStore.Update | src/java/fr/paris/lutece/plugins/appointment/service/SlotService.java:767-772 | the rows with the slot's key are replaced by it; counter and key invariant kept |
| Store.SlotStore.Delete | src/java/fr/paris/lutece/plugins/appointment/service/SlotService.java:895-900 | the rows with the key are removed; counter and key invariant kept |
| Persist.Numbered | src/java/fr/paris/lutece/plugins/appointment/service/SlotService.java:850-859 | same length; slot `i` gets key `firstId + i` and is otherwise unchanged |
| Persist.WithoutIds | src/java/fr/paris/lutece/plugins/appointment/service/SlotService.java:881-887 | a row is left exactly when no listed slot has its key |
| Persist.CreateAll | src/java/fr/paris/lutece/plugins/appointment/service/SlotService.java:850-859 | the old rows come first, then listed slot `i` under key `counter + i`; the counter advances by the length of the list |
| Persist.DeleteAll | src/java/fr/paris/lutece/plugins/appointment/service/SlotService.java:881-887 | a row is left exactly when no listed slot has its key; the counter is unchanged |
| Persist.Save | src/java/fr/paris/lutece/plugins/appointment/service/SlotService.java:747-759 | a slot without a key is appended under the next key and the counter advances; a slot with one rewrites its row |
| Persist.DeleteOne | src/java/fr/paris/lutece/plugins/appointment/service/SlotService.java:895-900 | exactly the rows with another key remain; the counter is unchanged |
| Persist.SaveSlot | src/java/fr/paris/lutece/plugins/appointment/service/SlotService.java:747-759 | the table becomes `Save` of the old one; the slot is returned with the key it was stored under |
| Persist.CreateListSlot | src/java/fr/paris/lutece/plugins/appointment/service/SlotService.java:850-859 | the slots are created in list order under consecutive keys and returned with them |
| Persist.DeleteSlot | src/java/fr/paris/lutece/plugins/appointment/service/SlotService.java:895-900 | the table becomes `DeleteOne` of the old one |
| Persist.DeleteListSlots | src/java/fr/paris/lutece/plugins/appointment/service/SlotService.java:881-887 | the listed slots are deleted one after the other: the table loses exactly their keys |
| Persist.CreateAllContents | src/java/fr/paris/lutece/plugins/appointment/service/SlotService.java:850-859 | creating slots keeps every old row, adds each listed slot under its fresh key, and every new row has a key at or above the old counter and below the new one |
| Persist.SavedAs | src/java/fr/paris/lutece/plugins/appointment/service/SlotService.java:747-759 | the stored slot differs from the given one at most in its key, and not at all when it had one |
| Persist.SaveOutcome | src/java/fr/paris/lutece/plugins/appointment/service/SlotService.java:747-759 | saving keeps the keys sound, stores the slot, keeps every row of another key and adds nothing else |
| Persist.DeleteAllKeysOk | src/java/fr/paris/lutece/plugins/appointment/service/SlotService.java:881-887 | deleting keeps the keys sound |
| Persist.CreateAllKeysOk | src/java/fr/paris/lutece/plugins/appointment/service/SlotService.java:850-859 | creating keeps the keys sound: no two rows share a key |
| Capacity.Max0 | src/java/fr/paris/lutece/plugins/appointment/service/SlotService.java:729-735 | the floor at zero: zero for a negative value, the value otherwise |
| Capacity.Reconcile | src/java/fr/paris/lutece/plugins/appointment/service/SlotService.java:716-737 | only the two remaining counters change. An unchanged capacity leaves the slot as it is. A raise by `d` adds `d` to both stored counters. A cut by `d` takes `d` off both, with a floor at zero. |
| Capacity.UpdateRemainingPlaces | src/java/fr/paris/lutece/plugins/appointment/service/SlotService.java:710-738 | the slot is reconciled with its stored row |
| Capacity.ReconcileNonNegative | src/java/fr/paris/lutece/plugins/appointment/service/SlotService.java:716-737 | with non-negative stored counters, the remaining counters stay non-negative |
| Capacity.ReconcileRoundTrip | src/java/fr/paris/lutece/plugins/appointment/service/SlotService.java:716-737 | raising the capacity and lowering it back restores the counters; lowering and raising back restores them exactly when the cut did not hit the floor |
| Capacity.ReconcileKeepsBalance | src/java/fr/paris/lutece/plugins/appointment/service/SlotService.java:716-737 | when the new capacity still covers the places taken, a balanced slot stays balanced: remaining = capacity - taken |
| Capacity.ReconcileForgetsOverbooking | src/java/fr/paris/lutece/plugins/appointment/service/SlotService.java:729-735 | a cut below the places taken leaves no place, and raising the capacity back then hands out more places than capacity - taken |
| Capacity.Book | src/test/java/fr/paris/lutece/plugins/appointment/service/AppointmentServiceTest.java:223-299 | booking `n` places keeps a balanced slot balanced and keeps taken + remaining |
| Capacity.Release | src/test/java/fr/paris/lutece/plugins/appointment/service/AppointmentServiceTest.java:304-355 | releasing `n` places keeps a balanced slot balanced and keeps taken + remaining |
| Capacity.BookRelease | src/test/java/fr/paris/lutece/plugins/appointment/service/AppointmentServiceTest.java:304-519 | releasing undoes booking, and two bookings commute |
| Capacity.BookingScenarios | src/test/java/fr/paris/lutece/plugins/appointment/service/AppointmentServiceTest.java:223-299 | the counters the booking tests expect after one and two bookings |
| Capacity.ReleaseOnlyBookingScenarios | src/test/java/fr/paris/lutece/plugins/appointment/service/AppointmentServiceTest.java:304-355 | cancelling the only booking gives the counters back |
| Capacity.ReleaseOneOfTwoBookingsScenarios | src/test/java/fr/paris/lutece/plugins/appointment/service/AppointmentServiceTest.java:360-419 | cancelling one of two bookings leaves the other one's places taken |
| RuleLookup.ClosestDateInPast | src/java/fr/paris/lutece/plugins/appointment/service/SlotService.java:231-237 | the greatest date of the list not after the target; None exactly when every date is after it |
| RuleLookup.FirstDate | src/java/fr/paris/lutece/plugins/appointment/service/SlotService.java:215 | the least date of the list; None exactly when it is empty |
| RuleLookup.WeekDates | src/java/fr/paris/lutece/plugins/appointment/service/SlotService.java:197 | the dates of apply of the week definitions, in order |
| RuleLookup.RuleDates | src/java/fr/paris/lutece/plugins/appointment/service/SlotService.java:198 | the dates of apply of the reservation rules, in order |
| RuleLookup.WeekWithDate | src/java/fr/paris/lutece/plugins/appointment/service/SlotService.java:234 | `map.get`: a week definition applied on that date, None when there is none |
| RuleLookup.RuleWithDate | src/java/fr/paris/lutece/plugins/appointment/service/SlotService.java:238 | `map.get`: a reservation rule applied on that date, None when there is none |
| RuleLookup.EffectiveWeekDefinition | src/java/fr/paris/lutece/plugins/appointment/service/SlotService.java:231-234 | the week definition with the latest date of apply on or before the date; None exactly when all apply later |
| RuleLookup.EffectiveReservationRule | src/java/fr/paris/lutece/plugins/appointment/service/SlotService.java:235-238 | the reservation rule with the latest date of apply on or before the date; None exactly when all apply later |
| RuleLookup.WorkingDayOfDayOfWeek | src/java/fr/paris/lutece/plugins/appointment/service/SlotService.java:250 | a working day of that day of the week; None exactly when there is none |
| RuleLookup.MinStartingTime | src/java/fr/paris/lutece/plugins/appointment/service/SlotService.java:254 | the start of some template, and no template starts earlier |
| RuleLookup.MaxEndingTime | src/java/fr/paris/lutece/plugins/appointment/service/SlotService.java:255 | the end of some template, and no template ends later |
| RuleLookup.MinDuration | src/java/fr/paris/lutece/plugins/appointment/service/SlotService.java:795 | the duration of some template, and no template is shorter |
| RuleLookup.MinStartingTimeOfWorkingDays | src/java/fr/paris/lutece/plugins/appointment/service/SlotService.java:307 | None exactly when no working day of the week has a template; otherwise the start of some template of the week, and no template starts earlier |
| RuleLookup.MaxEndingTimeOfWorkingDays | src/java/fr/paris/lutece/plugins/appointment/service/SlotService.java:308 | None exactly when no working day of the week has a template; otherwise the end of some template of the week, and no template ends later |
| RuleLookup.MinDurationOfWorkingDays | src/java/fr/paris/lutece/plugins/appointment/service/SlotService.java:309 | zero when no working day has a template; otherwise the duration of some template of the week, and no template is shorter |
| RuleLookup.NoTemplates | src/java/fr/paris/lutece/plugins/appointment/service/SlotService.java:307-310 | the week's list of templates is empty exactly when each of its working days has none |
| RuleLookup.AllTimeSlots | src/java/fr/paris/lutece/plugins/appointment/service/SlotService.java:307-309 | a template is listed exactly when it belongs to one of the working days |
| RuleLookup.MinDurationPositive | src/java/fr/paris/lutece/plugins/appointment/service/SlotService.java:309 | in a well-formed week the shortest template lasts at least a minute |
| RuleLookup.TimeSlotWithStartingTime | src/java/fr/paris/lutece/plugins/appointment/service/SlotService.java:280 | the first template starting at the time; None exactly when none does |
| RuleLookup.TimeSlotsFrom | src/java/fr/paris/lutece/plugins/appointment/service/SlotService.java:517-518 | exactly the templates starting at or after the time |
| Specific.MatchingTimeSlots | src/java/fr/paris/lutece/plugins/appointment/service/SlotService.java:426-432 | exactly the templates with the slot's start, end, open flag and capacity |
| Specific.IsSpecificSlot | src/java/fr/paris/lutece/plugins/appointment/service/SlotService.java:413-438 | without a working day: specific unless closed with the rule's capacity. With one: specific unless some template has the slot's start, end, open flag and capacity. |
| Specific.SpecificFlagIgnored | src/java/fr/paris/lutece/plugins/appointment/service/SlotService.java:413-438 | the slot's own specific flag does not change the classification |
| Specific.SameShapeListsAgree | src/java/fr/paris/lutece/plugins/appointment/service/SlotService.java:413-438 | two slots of the same shape are classified alike |
| Specific.IsSpecificSlotOfDay | src/java/fr/paris/lutece/plugins/appointment/service/SlotService.java:388-400 | the one-argument overload, against the rules in force on the slot's date: ordinary exactly when it is the closed default on a day without a working day, or has a template's shape |
| Specific.SpecificOfDayFlagIgnored | src/java/fr/paris/lutece/plugins/appointment/service/SlotService.java:388-400 | the one-argument overload ignores the slot's own specific flag |
| Specific.EditingTemplateSlotMakesSpecific | src/java/fr/paris/lutece/plugins/appointment/service/SlotService.java:413-438 | a copy of a template is not specific; changing its open flag, capacity, start or end makes it specific when no two templates share a bound |
| FormValidation.ErrorIf | src/java/fr/paris/lutece/plugins/appointment/web/AppointmentFormJspBean.java:862-880 | the message is added exactly when the condition holds |
| FormValidation.JavaRem | src/java/fr/paris/lutece/plugins/appointment/web/AppointmentFormJspBean.java:875 | Java's `%`: the remainder has the sign of the dividend and is smaller than the divisor in magnitude |
| FormValidation.JavaRemZero | src/java/fr/paris/lutece/plugins/appointment/web/AppointmentFormJspBean.java:875 | Java's remainder is zero exactly for the multiples of the divisor |
| FormValidation.CheckStartingAndEndingTime | src/java/fr/paris/lutece/plugins/appointment/web/AppointmentFormJspBean.java:862-880 | three independent tests, each adding its message exactly when it fails: start after end, appointment longer than the day, day not a multiple of the appointment; ok exactly when none fails |
| FormValidation.TimeCheckSplitsTheDay | src/java/fr/paris/lutece/plugins/appointment/web/AppointmentFormJspBean.java:862-880 | with a positive duration, the time check passes exactly when the day is one or more whole appointments long |
| FormValidation.CheckStartingAndEndingValidityDate | src/java/fr/paris/lutece/plugins/appointment/web/AppointmentFormJspBean.java:890-900 | fails, with its message, exactly when both dates are given and the first is after the last |
| FormValidation.CheckSlotCapacityAndPeoplePerAppointment | src/java/fr/paris/lutece/plugins/appointment/web/AppointmentFormJspBean.java:911-918 | fails, with its message, exactly when an appointment may book more people than a slot holds |
| FormValidation.CheckAtLeastOneWorkingDayOpen | src/java/fr/paris/lutece/plugins/appointment/web/AppointmentFormJspBean.java:843-853 | passes exactly when the form opens on some day 1..7; the message is added otherwise |
| FormValidation.CheckConstraints | src/java/fr/paris/lutece/plugins/appointment/web/AppointmentFormJspBean.java:830-834 | ok exactly when all four checks pass; only the messages of the checks up to the first failing one (in the order time, validity, capacity, working day) are added |
| Materialise.FindSlotsByIdFormAndDateRange | src/java/fr/paris/lutece/plugins/appointment/service/SlotService.java:85-93 | exactly the rows of the form inside the range, each with its derived fields recomputed |
| Materialise.MapByStart | src/java/fr/paris/lutece/plugins/appointment/service/SlotService.java:123-132 | keyed exactly by the starts of the list; each value is a slot of the list with that start, the last one in list order |
| Materialise.BuildMapSlotsByIdFormAndDateRangeWithDateForKey | src/java/fr/paris/lutece/plugins/appointment/service/SlotService.java:123-132 | the loop builds the map of the slots of the form in the range, keyed by start |
| Materialise.MapOfStoreOk | src/java/fr/paris/lutece/plugins/appointment/service/SlotService.java:123-132 | the map built from rows that each lie within one day is keyed by start with derived fields computed |
| Materialise.MapValuesStored | src/java/fr/paris/lutece/plugins/appointment/service/SlotService.java:123-132 | every value of the map is a stored row of the form, with its key and its start |
| Materialise.ClosedSlot | src/java/fr/paris/lutece/plugins/appointment/service/SlotService.java:318-331 | a closed, non-specific slot with nothing taken and the rule's capacity on all three counters, over the given period |
| Materialise.SlotFromTimeSlot | src/java/fr/paris/lutece/plugins/appointment/service/SlotService.java:280-290 | the slot of a template: its bounds, its open flag, not specific, nothing taken, the template's capacity when non-zero and the rule's otherwise |
| Materialise.ClosedStep | src/java/fr/paris/lutece/plugins/appointment/service/SlotService.java:327-331 | the next stop lies after the current time and at most at the day's end; it is one duration later unless clamped to the end |
| Materialise.ClosedStepAsWritten | src/java/fr/paris/lutece/plugins/appointment/service/SlotService.java:327-331 | the step as written lies within the day or is the day's end, and is exactly one duration later when that stays before midnight and before the end |
| Materialise.PersistedSlotEndsLater | src/java/fr/paris/lutece/plugins/appointment/service/SlotService.java:270-275 | a persisted slot starting at minute `t` ends later the same day, so the walk moves on |
| Materialise.NextPiece | src/java/fr/paris/lutece/plugins/appointment/service/SlotService.java:266-298 | the piece at `t` is the persisted slot starting there, else the filler's; it starts at `t` on the date, ends later the same day, or at the end of the day |
| Materialise.FillGap | src/java/fr/paris/lutece/plugins/appointment/service/SlotService.java:280-333 | the piece built when no persisted slot starts at `t`: nothing exactly when, on a working day, no template starts there; otherwise a slot of the form without a key, not specific, with nothing taken, starting at `t`, and ending either at the end of a template starting at `t` with its open flag, or closed at the next step of the closed walk |
| Materialise.Walk | src/java/fr/paris/lutece/plugins/appointment/service/SlotService.java:264-336 | the time walk of one day, as a value; it has no contract of its own: WalkIsContiguous, WalkProvenance, WalkStopsWhereNothingStarts and WalkOverTilingTemplates state its properties |
| Materialise.WalkIsContiguous | src/java/fr/paris/lutece/plugins/appointment/service/SlotService.java:264-298 | a walk starts at its first time, stays on its date, is chronological and contiguous |
| Materialise.WalkProvenance | src/java/fr/paris/lutece/plugins/appointment/service/SlotService.java:264-336 | each emitted slot is a persisted slot taken verbatim, or a template slot of the day (working day), or a closed gap slot (non-working day) |
| Materialise.WalkStopsWhereNothingStarts | src/java/fr/paris/lutece/plugins/appointment/service/SlotService.java:278-296 | on a working day the walk emits nothing exactly when neither a persisted slot nor a template starts at the time |
| Materialise.SlotsFromTimeSlots | src/java/fr/paris/lutece/plugins/appointment/service/SlotService.java:280-290 | one slot per template, in order, each the template's slot |
| Materialise.TilingStartsIncrease | src/java/fr/paris/lutece/plugins/appointment/service/SlotService.java:264-298 | templates that tile an interval start strictly later one after another |
| Materialise.WalkOverTilingTemplates | src/java/fr/paris/lutece/plugins/appointment/service/SlotService.java:264-298 | on a day without persisted slots, with templates that tile the day, the walk emits exactly one slot per template |
| Materialise.TimeSlotWithStartingTimeIsFirst | src/java/fr/paris/lutece/plugins/appointment/service/SlotService.java:280 | the template lookup returns the first template with the start |
| Materialise.ClosedWalkEndsAtMax | src/java/fr/paris/lutece/plugins/appointment/service/SlotService.java:312-336 | with the corrected step the closed walk emits at least one slot and its last slot ends exactly at the day's end |
| Materialise.ClosedWalkAsWritten | src/java/fr/paris/lutece/plugins/appointment/service/SlotService.java:312-336 | the closed walk as written, run for at most `fuel` iterations (None when it has not ended); a run that ends and does not start at the day's end emits at least one slot |
| Materialise.ClosedWalkAgreesBeforeMidnight | src/java/fr/paris/lutece/plugins/appointment/service/SlotService.java:312-336 | when no step of the closed walk can reach midnight (the day's end plus the duration is at most 24:00, and one duration after the start and after every persisted end is still before midnight), the walk as written ends and emits exactly the slots of the walk with the corrected step |
| Materialise.ExampleWeekFigures | src/java/fr/paris/lutece/plugins/appointment/service/SlotService.java:307-309 | the earliest start, latest end and shortest duration of the example week: 08:00, 23:50 and 20 minutes |
| Materialise.ClosedWalkAsWrittenNeverEnds | src/java/fr/paris/lutece/plugins/appointment/service/SlotService.java:312-336 | as written, the closed walk of a non-working day of the example week never ends, whatever the fuel |
| Materialise.ClosedWalkOfExampleEnds | src/java/fr/paris/lutece/plugins/appointment/service/SlotService.java:312-336 | with the corrected step the same walk ends, its last slot ending at 23:50, while the walk as written ends for no fuel |
| Materialise.WorkingDayBounds | src/java/fr/paris/lutece/plugins/appointment/service/SlotService.java:254-255 | a working day of a well-formed week has templates, and its earliest start and latest end lie within the day |
| Materialise.WeekBounds | src/java/fr/paris/lutece/plugins/appointment/service/SlotService.java:307-310 | a well-formed week with a template has both bounds inside the day and a positive shortest duration |
| Materialise.ClosingDayOnAWorkingDay | src/java/fr/paris/lutece/plugins/appointment/service/SlotService.java:257-261 | a closing date on a working day gives exactly one closed, non-specific slot from the day's first start to its last end, with the rule's capacity (0 without a rule) |
| Materialise.StartingDateToUse | src/java/fr/paris/lutece/plugins/appointment/service/SlotService.java:215-220 | not before the planning's start; when different, it is the earliest reservation rule's date |
| Materialise.ClosingDaysInRange | src/java/fr/paris/lutece/plugins/appointment/service/SlotService.java:222 | exactly the closing dates within the range |
| Materialise.WalkWorkingDay | src/java/fr/paris/lutece/plugins/appointment/service/SlotService.java:264-298 | the working-day loop emits the walk of the day |
| Materialise.WorkingDayPiece | src/java/fr/paris/lutece/plugins/appointment/service/SlotService.java:268-296 | the loop body: the persisted slot starting at the time, else the first template's slot, else it stops |
| Materialise.WalkNonWorkingDay | src/java/fr/paris/lutece/plugins/appointment/service/SlotService.java:312-336 | the non-working-day loop emits the closed walk of the day |
| Materialise.NonWorkingDayPiece | src/java/fr/paris/lutece/plugins/appointment/service/SlotService.java:318-334 | the loop body: the persisted slot starting at the time, else a closed slot up to the next step |
| Materialise.BuildDaySlots | src/java/fr/paris/lutece/plugins/appointment/service/SlotService.java:230-336 | one turn of the day loop emits the slots of the date |
| Materialise.DaySlots | src/java/fr/paris/lutece/plugins/appointment/service/SlotService.java:230-338 | the slots of one date, as a value; it has no contract of its own: DaySlotsOnTheirDate and DaySlotsProvenance state its properties |
| Materialise.AddSlotsOfDay | src/java/fr/paris/lutece/plugins/appointment/service/SlotService.java:228-339 | the slots of the date are appended to those of the dates before it, and the loop moves to the next date |
| Materialise.SlotsOfDays | src/java/fr/paris/lutece/plugins/appointment/service/SlotService.java:228-341 | the slots of the dates of a range, in date order, as a value; it has no contract of its own: SlotsOfDaysOrdered and SlotsOfDaysComplete state its properties |
| Materialise.SlotsOfDaysComplete | src/java/fr/paris/lutece/plugins/appointment/service/SlotService.java:228-341 | every slot of every date of the range is among the slots of the range |
| Materialise.SlotsOfDaysOrdered | src/java/fr/paris/lutece/plugins/appointment/service/SlotService.java:228-339 | the slots of consecutive dates are chronological, each on one of the dates, with its derived fields computed |
| Materialise.BuildSlotsOfDays | src/java/fr/paris/lutece/plugins/appointment/service/SlotService.java:228-339 | the day loop emits the slots of every date of the range, in date order |
| Materialise.BuildListSlot | src/java/fr/paris/lutece/plugins/appointment/service/SlotService.java:192-344 | the planning of the period, chronological, each slot on a date of the period with its derived fields computed |
| Materialise.Planning | src/java/fr/paris/lutece/plugins/appointment/service/SlotService.java:192-344 | the planning of buildListSlot as a value, from the stored rows, the rules and the closing dates: chronological, each slot on a date of the period with its derived fields computed |
| Materialise.ChronologicalAppend | src/java/fr/paris/lutece/plugins/appointment/service/SlotService.java:228-339 | the slots of earlier dates followed by the chronological slots of a later date are chronological |
| Materialise.DaySlotsOnTheirDate | src/java/fr/paris/lutece/plugins/appointment/service/SlotService.java:230-336 | the slots of one date are chronological, lie on that date, and have their derived fields computed |
| Materialise.DaySlotsProvenance | src/java/fr/paris/lutece/plugins/appointment/service/SlotService.java:230-336 | every slot of a date that has a key is a persisted slot of the map; built slots carry no key |
| Materialise.PlanningOfOneDayProvenance | src/java/fr/paris/lutece/plugins/appointment/service/SlotService.java:192-344 | every keyed slot of the planning of one date comes from a stored row with that key and that start |
| Materialise.OneDayRun | src/java/fr/paris/lutece/plugins/appointment/service/SlotService.java:228-339 | a run of one date is that date's slots |
| Generate.DayEndTime | src/java/fr/paris/lutece/plugins/appointment/service/SlotService.java:788-801 | the latest template end of the working day, or of the whole week on a day without one; inside the day |
| Generate.DayMinDuration | src/java/fr/paris/lutece/plugins/appointment/service/SlotService.java:788-801 | positive; on a working day, the shortest template duration of the day |
| Generate.GeneratedSlotShape | src/java/fr/paris/lutece/plugins/appointment/service/SlotService.java:805-820 | a generated slot spans its bounds: closed, no key, nothing taken, the rule's capacity on all counters, specific as classified |
| Generate.GeneratedSlotsTile | src/java/fr/paris/lutece/plugins/appointment/service/SlotService.java:803-822 | nothing is generated exactly when the start is not before the day's end; otherwise the slots start at the start, follow one another and the last ends at the day's end |
| Generate.GeneratedSlots | src/java/fr/paris/lutece/plugins/appointment/service/SlotService.java:803-822 | the generation loop as a value; it has no contract of its own: GeneratedSlotsTile, GeneratedSlotsLengths and GeneratedSlotsBuilt state its properties |
| Generate.GeneratedSlotsLengths | src/java/fr/paris/lutece/plugins/appointment/service/SlotService.java:803-822 | every generated slot but the last lasts exactly the duration; each lies in [start, end] and lasts at most the duration |
| Generate.GeneratedSlotsBuilt | src/java/fr/paris/lutece/plugins/appointment/service/SlotService.java:805-820 | every generated slot is built as the generation builds slots |
| Generate.GenerateListSlotToCreateAfterATime | src/java/fr/paris/lutece/plugins/appointment/service/SlotService.java:781-823 | the closed slots from the given date-time to the end of its day, with the rules of that date |
| Generate.SlotsAfterATime | src/java/fr/paris/lutece/plugins/appointment/service/SlotService.java:781-823 | nothing is generated exactly when the date-time is not before the end of its day; otherwise the first slot starts at the date-time and the last one ends at the day's end |
| Generate.FillDayFrom | src/java/fr/paris/lutece/plugins/appointment/service/SlotService.java:803-822 | the generation loop emits the generated slots |
| Generate.BuildClosedSlot | src/java/fr/paris/lutece/plugins/appointment/service/SlotService.java:805-820 | one loop step builds the generated slot over its bounds |
| Shifting.ShiftLater | src/java/fr/paris/lutece/plugins/appointment/service/SlotService.java:659-681 | dropped exactly when the new start is not before the end of the day; otherwise the start moves by the amount and the end is clamped to the end of the day; nothing else changes |
| Shifting.ShiftEarlier | src/java/fr/paris/lutece/plugins/appointment/service/SlotService.java:687-690 | both ends move earlier by the amount; nothing else changes |
| Shifting.ShiftRoundTrip | src/java/fr/paris/lutece/plugins/appointment/service/SlotService.java:659-690 | moving earlier then later restores a slot before the end of the day; moving later without clamping then earlier restores it too |
| Shifting.Respecify | src/java/fr/paris/lutece/plugins/appointment/service/SlotService.java:676-690 | only the specific flag changes, and it becomes the slot's own classification |
| Shifting.ShiftStep | src/java/fr/paris/lutece/plugins/appointment/service/SlotService.java:652-692 | one loop body: when the slot got longer, dropped exactly when its new start reaches the end of the day, else moved later and clamped; when shorter, moved earlier as a whole; only times and flag change, and the flag is the slot's classification on its date |
| Shifting.ApplyShifts | src/java/fr/paris/lutece/plugins/appointment/service/SlotService.java:652-692 | the shift loop never moves the counter back, and leaves it where it was when every slot it visits has its key |
| Shifting.StepTableMembers | src/java/fr/paris/lutece/plugins/appointment/service/SlotService.java:652-692 | one loop body on the table keeps the other keys' rows, stores the shifted slot, leaves no row for a dropped one, and adds nothing else |
| Shifting.ApplyShiftsKeepsOthers | src/java/fr/paris/lutece/plugins/appointment/service/SlotService.java:652-692 | the shift loop leaves the counter and the rows of the keys it does not visit alone |
| Shifting.ApplyShiftsProvenance | src/java/fr/paris/lutece/plugins/appointment/service/SlotService.java:652-692 | every row after the loop is an untouched row or a shifted slot |
| Shifting.ApplyShiftsStoresShifted | src/java/fr/paris/lutece/plugins/appointment/service/SlotService.java:652-692 | over slots with distinct stored keys, every shifted slot is stored and no row is left for a dropped one |
| Shifting.ApplyShiftsOutcome | src/java/fr/paris/lutece/plugins/appointment/service/SlotService.java:652-692 | the four facts together: other rows stay, shifted slots stored, dropped slots gone, nothing else |
| Shifting.ShiftOne | src/java/fr/paris/lutece/plugins/appointment/service/SlotService.java:654-691 | one loop body: the moved slot is saved when it is kept, and deleted when it was pushed past the end of the day |
| Shifting.MoveSlot | src/java/fr/paris/lutece/plugins/appointment/service/SlotService.java:654-691 | the move of one slot: later and re-classified (or dropped) when the slot got longer, earlier and re-classified otherwise |
| Shifting.MoveEarlier | src/java/fr/paris/lutece/plugins/appointment/service/SlotService.java:687-690 | both ends move back by the amount; nothing else changes |
| Shifting.MoveLater | src/java/fr/paris/lutece/plugins/appointment/service/SlotService.java:659-681 | the start moves later by the amount and the end is clamped to the end of the day; None when the new start reaches the end of the day |
| Shifting.ShiftSlots | src/java/fr/paris/lutece/plugins/appointment/service/SlotService.java:652-692 | the loop over the slots in the order given gives the table of the whole shift |
| Shifting.Select | src/java/fr/paris/lutece/plugins/appointment/service/SlotService.java:567-583 | exactly the slots of the list that meet the criterion, and no more slots than the list |
| Shifting.SelectKeepsOrder | src/java/fr/paris/lutece/plugins/appointment/service/SlotService.java:567-583 | filtering a chronological list keeps it chronological, so the filter keeps list order |
| Shifting.ChronologicalUnique | src/java/fr/paris/lutece/plugins/appointment/service/SlotService.java:597-598 | two chronological lists with the same slots are equal, so sorting by start has a single outcome |
| Shifting.AssignIds | src/java/fr/paris/lutece/plugins/appointment/service/SlotService.java:584-598 | same length; the slots without a key get the next keys in list order, the others stay |
| Shifting.AssignIdsIsTheSortedUnion | src/java/fr/paris/lutece/plugins/appointment/service/SlotService.java:584-598 | the keyed list is chronological and holds exactly the persisted slots and the newly created ones |
| Shifting.AssignIdsKeys | src/java/fr/paris/lutece/plugins/appointment/service/SlotService.java:584-598 | every slot ends up with a key, and no two share one |
| Shifting.NewKeys | src/java/fr/paris/lutece/plugins/appointment/service/SlotService.java:584-598 | the new keys run from the counter on, strictly increasing, one per slot without a key |
| Shifting.Reverse | src/java/fr/paris/lutece/plugins/appointment/service/SlotService.java:633 | same length, element `i` is element `n - 1 - i` of the input, same slots |
| Shifting.ReverseKeepsDistinctIds | src/java/fr/paris/lutece/plugins/appointment/service/SlotService.java:633 | reversing keeps the keys distinct |
| Shifting.EarliestStart | src/java/fr/paris/lutece/plugins/appointment/service/SlotService.java:624 | the start of some slot of the list, and no slot starts earlier |
| Shifting.ChronologicalEarliestIsFirst | src/java/fr/paris/lutece/plugins/appointment/service/SlotService.java:624 | in a chronological list the earliest start is the first slot's |
| Editing.ClosestInFuture | src/java/fr/paris/lutece/plugins/appointment/service/SlotService.java:505 | the least date-time of the list at or after the target; None exactly when all lie before it |
| Editing.ClosestUnique | src/java/fr/paris/lutece/plugins/appointment/service/SlotService.java:505 | those three properties determine the result |
| Editing.GetClosestDateTimeInFuture | src/java/fr/paris/lutece/plugins/appointment/service/SlotService.java:505 | the one-pass search returns the closest date-time in the future |
| Editing.Starts | src/java/fr/paris/lutece/plugins/appointment/service/SlotService.java:498-501 | same length, element `i` is the start of slot `i` |
| Editing.StartsAreTheKeys | src/java/fr/paris/lutece/plugins/appointment/service/SlotService.java:498-501 | the keys of the map of next slots are exactly the starts of those slots |
| Editing.NextStart | src/java/fr/paris/lutece/plugins/appointment/service/SlotService.java:498-536 | with slots of the form after the edited one, the earliest of their starts; with none, found exactly when the date is a working day with a template starting at or after the edited slot's end, and then it is the earliest such template's start on the date |
| Editing.GapSlot | src/java/fr/paris/lutece/plugins/appointment/service/SlotService.java:538-543 | the gap slot runs from the edited slot's end to the next start: closed, specific, no key, nothing taken, the edited slot's capacity on all three counters |
| Editing.UpdateSlotWithoutShift | src/java/fr/paris/lutece/plugins/appointment/service/SlotService.java:490-551 | the table: absorbed rows deleted, the edited slot reconciled and saved, then the following slots created |
| Editing.DeleteAbsorbed | src/java/fr/paris/lutece/plugins/appointment/service/SlotService.java:494-496 | the slots of the form starting within the edited slot, after its start, are deleted |
| Editing.SaveAndFill | src/java/fr/paris/lutece/plugins/appointment/service/SlotService.java:497-550 | the rest of the edition without shift, once the absorbed rows are gone |
| Editing.Filled | src/java/fr/paris/lutece/plugins/appointment/service/SlotService.java:537-550 | the edited slot saved and the following slots created: the counter and the row count grow by one for an edited slot without a key, plus one per created slot |
| Editing.WithoutShiftTable | src/java/fr/paris/lutece/plugins/appointment/service/SlotService.java:490-551 | the whole edition without shift: the counter grows by one for an edited slot without a key, plus one per slot created after the absorbed rows are deleted |
| Editing.SaveEdited | src/java/fr/paris/lutece/plugins/appointment/service/SlotService.java:544-549 | the slot is reconciled with its stored row when it has a key, then saved |
| Editing.NextSlotsWithoutShift | src/java/fr/paris/lutece/plugins/appointment/service/SlotService.java:492-543 | the slots to create after the edited one: the generated day, the gap slot, or nothing |
| Editing.ClosestNextSlot | src/java/fr/paris/lutece/plugins/appointment/service/SlotService.java:498-506 | found exactly when a slot of the form follows on the day; the next start is then the closest of their starts |
| Editing.NextFromTheDay | src/java/fr/paris/lutece/plugins/appointment/service/SlotService.java:507-536 | with nothing after: on a working day nothing generated and the earliest template from the end on; otherwise the generated day and no next start |
| Editing.PlanFor | src/java/fr/paris/lutece/plugins/appointment/service/SlotService.java:599-643 | longer exactly when the new end is later; the amount later is the distance from the new end to the earliest slot to shift (or the growth when there is none); the amount earlier is the shrinkage; the day's end is the latest template end |
| Editing.Distance | src/java/fr/paris/lutece/plugins/appointment/service/SlotService.java:626-632 | non-negative, and one of the two differences |
| Editing.ShiftOrder | src/java/fr/paris/lutece/plugins/appointment/service/SlotService.java:633 | a reordering: the same slots, each as many times |
| Editing.SetupShift | src/java/fr/paris/lutece/plugins/appointment/service/SlotService.java:567-643 | every slot to shift lies on the edited slot's date and its rules are there; the regeneration starts at the day's end moved back; preparing never moves the counter back |
| Editing.Arranged | src/java/fr/paris/lutece/plugins/appointment/service/SlotService.java:599-643 | the regeneration starts at the day's end moved back by the shift |
| Editing.SlotsToShiftOnTheDate | src/java/fr/paris/lutece/plugins/appointment/service/SlotService.java:567-598 | every slot to shift lies on the edited slot's date |
| Editing.UpdateSlotWithShift | src/java/fr/paris/lutece/plugins/appointment/service/SlotService.java:561-702 | the table: preparation, the edited slot saved, the following slots shifted, and the day's end regenerated when they moved earlier |
| Editing.PlanAndShift | src/java/fr/paris/lutece/plugins/appointment/service/SlotService.java:599-701 | the rest of the edition with shift once the table is prepared |
| Editing.PrepareShift | src/java/fr/paris/lutece/plugins/appointment/service/SlotService.java:567-598 | the slots after the edited one, the absorbed ones deleted, the built ones created, the slots to shift sorted with their keys |
| Editing.SlotsOfTheDayAfter | src/java/fr/paris/lutece/plugins/appointment/service/SlotService.java:567-570 | the slots of the day after the edited one, chronological |
| Editing.DeleteAndCreate | src/java/fr/paris/lutece/plugins/appointment/service/SlotService.java:571-598 | the table after deletion and creation, and the slots to shift with their keys |
| Editing.SortedUnion | src/java/fr/paris/lutece/plugins/appointment/service/SlotService.java:584-598 | the sorted list is chronological, holds exactly the persisted and created slots, and is the only such list |
| Editing.PlanShift | src/java/fr/paris/lutece/plugins/appointment/service/SlotService.java:599-643 | the plan, the order of the loop and the regeneration start |
| Editing.EndingTimeOfTheDay | src/java/fr/paris/lutece/plugins/appointment/service/SlotService.java:599-613 | the latest template end of the working day, of the whole week without one |
| Editing.SaveAndShift | src/java/fr/paris/lutece/plugins/appointment/service/SlotService.java:644-701 | the edited slot reconciled and saved, the shift loop, and the regeneration when the slots moved earlier |
| Editing.ShiftedTable | src/java/fr/paris/lutece/plugins/appointment/service/SlotService.java:644-692 | after the save and the shift the counter never moves back; when every slot to shift has its key, it grows only by one for an edited slot without a key |
| Editing.WithShiftTable | src/java/fr/paris/lutece/plugins/appointment/service/SlotService.java:561-702 | the whole edition with shift: the counter never moves back; when every slot to shift has its key it grows by one for an edited slot without a key, plus, when the slots moved earlier, one per regenerated slot |
| Editing.UpdateSlot | src/java/fr/paris/lutece/plugins/appointment/service/SlotService.java:453-482 | the slot re-classified; then saved after reconciliation when its end did not move, or edited without or with the shift |
| Editing.UpdatedTable | src/java/fr/paris/lutece/plugins/appointment/service/SlotService.java:453-482 | updateSlot as a value: the counter never moves back; when the end did not move, the counter and the row count grow by one exactly for a slot without a key, and stay put for a slot whose row is rewritten |
| EditingFacts.ValidStoreKeys | src/java/fr/paris/lutece/plugins/appointment/service/SlotService.java:868-900 | a valid store is a table with sound keys |
| EditingFacts.WithoutShiftOutcome | src/java/fr/paris/lutece/plugins/appointment/service/SlotService.java:490-551 | without shift: every row of another key not absorbed stays, the edited slot is stored, every created slot is stored under a fresh key, and the keys stay sound |
| EditingFacts.WithoutShiftRemovesAbsorbed | src/java/fr/paris/lutece/plugins/appointment/service/SlotService.java:494-496 | the absorbed rows are gone, except the edited slot's own row |
| EditingFacts.CreatedWithoutShiftTiles | src/java/fr/paris/lutece/plugins/appointment/service/SlotService.java:507-543 | the created slots continue the edited slot without gaps, each lasting a positive time; nothing is created exactly when the next start is the edited slot's end |
| EditingFacts.StoredSameKey | src/java/fr/paris/lutece/plugins/appointment/service/SlotService.java:581-583 | in a chronological list of stored slots two slots with the same key are the same |
| EditingFacts.FollowingStored | src/java/fr/paris/lutece/plugins/appointment/service/SlotService.java:567-570 | the slots after the edited one are chronological and their keyed ones are stored |
| EditingFacts.PreparedRows | src/java/fr/paris/lutece/plugins/appointment/service/SlotService.java:571-586 | the preparation keeps the keys sound, keeps every row not absorbed and leaves none absorbed |
| EditingFacts.SlotsToShiftKeys | src/java/fr/paris/lutece/plugins/appointment/service/SlotService.java:584-598 | the slots to shift have distinct non-zero keys below the counter |
| EditingFacts.SlotsToShiftStored | src/java/fr/paris/lutece/plugins/appointment/service/SlotService.java:584-598 | every slot to shift has a row in the prepared table |
| EditingFacts.SetupSound | src/java/fr/paris/lutece/plugins/appointment/service/SlotService.java:567-643 | the setup worked out from a table with sound keys is one the shift can run on |
| EditingFacts.ShiftedTableOutcome | src/java/fr/paris/lutece/plugins/appointment/service/SlotService.java:644-692 | after the save and the shift: the other rows stay, shifted slots stored, dropped ones gone; the edited slot stored unless a shifted slot had its key |
| EditingFacts.RegenerationKeepsRows | src/java/fr/paris/lutece/plugins/appointment/service/SlotService.java:693-700 | regeneration keeps every row of the shifted table; nothing is generated when the slots moved later |
| EditingFacts.RegeneratedStored | src/java/fr/paris/lutece/plugins/appointment/service/SlotService.java:693-700 | when the slots moved earlier, the regenerated end of the day is stored under the next keys |
| EditingFacts.WithShiftOutcome | src/java/fr/paris/lutece/plugins/appointment/service/SlotService.java:561-702 | with shift, from a table with sound keys: untouched rows stay, absorbed rows are deleted, shifted slots stored, dropped ones gone, the edited slot stored unless a shifted slot had its key |
| EditingFacts.ExtendMovesFirstSlot | src/java/fr/paris/lutece/plugins/appointment/service/SlotService.java:620-634 | when longer, the loop runs latest first; an overlapped first slot then starts at the new end, while one after it moves away so the gap doubles |
| EditingFacts.ShrinkMovesEarlier | src/java/fr/paris/lutece/plugins/appointment/service/SlotService.java:636-643 | when shorter, the slots move earlier in order by exactly the shrinkage, and the day's end is regenerated from the end moved back |

## Left out

- Listener notifications (slot created, updated or removed) are not modelled; they have no effect on the table.
- Error messages are recorded as names (`addError` with its i18n key); locales are left out.
- `LocalTime.parse` of the form's opening and closing times is left out. The checks take the times as minutes.
- Bean validation of the form (`validateBean`) and the request handlers of the back office are left out; they are web-layer code.
- The SQL of the slot, week definition, reservation rule and closing day services is not part of this model. The range query keeps the rows of the form that start at or after the range's start and end at or before its end.
- The rule services are inputs, given as sequences: `Utilities`, `WorkingDayService`, `TimeSlotService`, `WeekDefinitionService`, `ReservationRuleService` and `ClosingDayService`. Their behaviour is inferred from their use in `SlotService`. `getClosestDateTimeInFuture` and `getNextTimeSlotsInAListOfTimeSlotAfterALocalTime` are taken to include the target itself, as the source's explicit test against the end shows.
- `LocalTime.MAX` (23:59:59.999) is minute 1439; seconds and nanoseconds are not modelled.
- Concurrency and transactions are not modelled.
- The slot DTO is mutated in place by the source; the model passes updated values, so aliasing between the slot given to `updateSlot` and other references to it is not captured.
- `sorted(compare starts)` over the slots to shift is modelled by `Shifting.AssignIds` over the already-chronological kept list, with `Shifting.ChronologicalUnique` showing the sorted list is unique. The model does not follow Java's sorting algorithm step by step.
- The finders not used by the named operations are not modelled: `findSpecificSlotsByIdForm`, `findListSlot`, `findListOpenSlotByIdFormAndDateRange`, `findSlotWithMaxDate`.
- `CategoryDAO`, `FormRuleService` and the other web handlers of `AppointmentFormJspBean` are not part of this model.
- Capacity.Book, Capacity.Release: the booking and cancellation counters are taken from what the appointment tests assert. The appointment service is not part of this model.
- EditingFacts.ExtendMovesFirstSlot: states the source's amount as written. When the first slot to shift starts after the new end, it moves away from the end and the gap doubles. The model keeps that behaviour rather than closing the gap.
- Editing.GapSlot: the gap slot takes the edited slot's capacity on all three counters, as `buildSlot(…, slot.getMaxCapacity(), …)` does at SlotService.java:538-541, and not the capacity of the reservation rule in force.
- Specific.IsSpecificSlotOfDay, Specific.SpecificOfDayFlagIgnored: require a week definition and a reservation rule in force on the slot's date. The source dereferences both without a null check.
- Materialise.FillGap: uses the corrected step of the closed walk (`Materialise.ClosedStep`, clamped to the day's end before any wrap) and not the source's step at SlotService.java:327-331, which adds the duration with `plusMinutes`, wrapping at midnight, and clamps afterwards. The two differ only when a step reaches midnight, that is when the week's latest end plus its shortest duration exceeds 24:00 (or a persisted slot ends that close to midnight). Otherwise Materialise.ClosedWalkAgreesBeforeMidnight proves they emit the same slots; the Findings row shows the wrapping walk never ending.
- Materialise.Walk: uses the corrected step `Materialise.ClosedStep` rather than the wrapping step of SlotService.java:327-331, so it differs from the source exactly where Materialise.FillGap does.
- Materialise.WalkNonWorkingDay: uses the corrected step `Materialise.ClosedStep` rather than the wrapping step of SlotService.java:327-331, so it differs from the source exactly where Materialise.FillGap does.
- Materialise.NonWorkingDayPiece: uses the corrected step `Materialise.ClosedStep` rather than the wrapping step of SlotService.java:327-331, so it differs from the source exactly where Materialise.FillGap does.
- Materialise.DaySlots: uses the corrected step `Materialise.ClosedStep` rather than the wrapping step of SlotService.java:327-331, so it differs from the source exactly where Materialise.FillGap does.
- Materialise.BuildDaySlots: uses the corrected step `Materialise.ClosedStep` rather than the wrapping step of SlotService.java:327-331, so it differs from the source exactly where Materialise.FillGap does.
- Materialise.SlotsOfDays: uses the corrected step `Materialise.ClosedStep` rather than the wrapping step of SlotService.java:327-331, so it differs from the source exactly where Materialise.FillGap does.
- Materialise.BuildSlotsOfDays: uses the corrected step `Materialise.ClosedStep` rather than the wrapping step of SlotService.java:327-331, so it differs from the source exactly where Materialise.FillGap does.
- Materialise.Planning: uses the corrected step `Materialise.ClosedStep` rather than the wrapping step of SlotService.java:327-331, so it differs from the source exactly where Materialise.FillGap does.
- Materialise.BuildListSlot: uses the corrected step `Materialise.ClosedStep` rather than the wrapping step of SlotService.java:327-331, so it differs from the source exactly where Materialise.FillGap does.
- Materialise.NextPiece: uses the corrected step `Materialise.ClosedStep` rather than the wrapping step of SlotService.java:327-331, so it differs from the source exactly where Materialise.FillGap does.
- Materialise.AddSlotsOfDay: uses the corrected step `Materialise.ClosedStep` rather than the wrapping step of SlotService.java:327-331, so it differs from the source exactly where Materialise.FillGap does.
- Editing.SlotsOfTheDayAfter: uses the corrected step `Materialise.ClosedStep` rather than the wrapping step of SlotService.java:327-331, so it differs from the source exactly where Materialise.FillGap does.
- Materialise.DaySlots: requires every week definition of the form to be well formed (`ValidWeekDefinitions`): each working day has a template, and each template starts before it ends, within the day. The source reads only the week in force on each date (SlotService.java:233-234), so a malformed week that is never in force on the planned dates is an input it plans normally and the model excludes. On the week in force the source needs the same: a working day without templates has no earliest start to begin the walk from (`WorkingDayService` is not part of this model); a zero-length template sets `timeTemp` to its own start at SlotService.java:283, so the working-day walk never ends; a zero shortest duration leaves the closed walk's `timeTemp` in place at SlotService.java:327 in the same way.
- Materialise.SlotsOfDays: requires every week definition of the form to be well formed, where the source reads only the weeks in force on the planned dates; see the Materialise.DaySlots line.
- Materialise.BuildDaySlots: requires every week definition of the form to be well formed, where the source reads only the weeks in force on the planned dates; see the Materialise.DaySlots line.
- Materialise.AddSlotsOfDay: requires every week definition of the form to be well formed, where the source reads only the weeks in force on the planned dates; see the Materialise.DaySlots line.
- Materialise.BuildSlotsOfDays: requires every week definition of the form to be well formed, where the source reads only the weeks in force on the planned dates; see the Materialise.DaySlots line.
- Materialise.Planning: requires every week definition of the form to be well formed, where the source reads only the weeks in force on the planned dates; see the Materialise.DaySlots line.
- Materialise.BuildListSlot: requires every week definition of the form to be well formed, where the source reads only the weeks in force on the planned dates; see the Materialise.DaySlots line.
- Editing.FollowingSlots: requires every week definition of the form to be well formed, where the source reads only the weeks in force on the planned dates; see the Materialise.DaySlots line.
- Editing.SlotsOfTheDayAfter: requires every week definition of the form to be well formed, where the source reads only the weeks in force on the planned dates; see the Materialise.DaySlots line.
- Materialise.WalkWorkingDay, Materialise.WorkingDayPiece: require the day's templates to be well formed (`FillerOk`), for the reason on the Materialise.DaySlots line: with a zero-length template the source's working-day walk never ends.
- Materialise.Planning, Materialise.BuildListSlot, Materialise.MapOfStoreOk: require the stored rows of the form to start and end on the same date (`FormRowsWithinOneDay`). The source keys the walk by time of day and assumes the same. The model does not prove that the edits keep this true.
- Generate.GenerateListSlotToCreateAfterATime, Generate.SlotsAfterATime: require every week definition of the form to be well formed (as for Materialise.DaySlots below), a week definition and a reservation rule in force on the date, and, on a day without a working day, a template somewhere in the week (`DayIsDefined`). The source dereferences the rule, the week and the week's latest end at SlotService.java:786-801 without a null check.
- Editing.UpdateSlotWithoutShift, Editing.WithoutShiftTable: require what the source dereferences (`WithoutShiftDefined`): the week definition of the slot's date, a stored row for a slot with a key, and, when the end of the day is generated, the rules of that date as Generate.GenerateListSlotToCreateAfterATime needs them. The source dereferences these lookups without a null check.
- Editing.UpdateSlotWithShift, Editing.WithShiftTable: require what the source dereferences (`WithShiftDefined`): the rules of the slot's date, a stored row for a slot with a key once the table is prepared, and the rules of the date the regeneration starts on; and the form's rows within one day, as for Materialise.BuildListSlot. The source dereferences these lookups without a null check.
- Editing.UpdateSlot, Editing.UpdatedTable: require what the branch taken requires (`UpdateDefined`): the rules of the slot's date for the re-classification at SlotService.java:455, and the preconditions of the branch above. The source dereferences these lookups without a null check.
- Capacity.UpdateRemainingPlaces: requires the slot to have a stored row. The source dereferences the lookup without a null check.
- FormValidation.CheckStartingAndEndingTime, FormValidation.CheckConstraints: require a non-zero appointment duration. The source divides by it, and a zero duration throws an `ArithmeticException`.

## Findings

| source | as written | input that shows it | evidently intended | confidence | as-written member | corrected member |
|---|---|---|---|---|---|---|
| src/java/fr/paris/lutece/plugins/appointment/service/SlotService.java:327-331 | the closed walk of a non-working day steps with `LocalTime.plusMinutes`, which wraps at midnight, and only then clamps to the day's end | a week whose working day has templates 08:00-08:20 and 08:20-23:50: earliest start 08:00, shortest duration 20, latest end 23:50; from 23:40 the step gives 00:00, which is not after 23:50, so the loop never reaches 23:50 and runs forever | the step is clamped to the day's end before any wrap, so the last closed slot ends at the day's end | not executed | Materialise.ClosedWalkAsWrittenNeverEnds | Materialise.ClosedWalkOfExampleEnds |
