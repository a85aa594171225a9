/** The shift of the slots that follow an edited slot (the loop of
    SlotService.updateSlotWithShift), and the list operations that select and order the
    slots to shift. */
module Shifting {
  import opened SlotTypes
  import opened RuleLookup
  import opened Specific
  import opened Store
  import opened Materialise
  import opened Persist

  /** A slot moved `timeToAdd` minutes later. It is dropped when it would no longer start
      before the end of the day; otherwise its end is clamped to the end of the day, so it
      keeps its length exactly when it still fits. Nothing but the two bounds changes. */
  function ShiftLater(s: Slot, timeToAdd: int, endOfDay: int): (r: Option<Slot>)
    ensures r.None? <==> s.startingDateTime + timeToAdd >= endOfDay
    ensures r.Some? ==>
      && r.value.startingDateTime == s.startingDateTime + timeToAdd
      && r.value.startingDateTime < endOfDay && r.value.endingDateTime <= endOfDay
      && (r.value.endingDateTime == s.endingDateTime + timeToAdd <==> s.endingDateTime + timeToAdd <= endOfDay)
      && r.value.(startingDateTime := s.startingDateTime, endingDateTime := s.endingDateTime) == s
  {
    if s.startingDateTime + timeToAdd < endOfDay then
      var moved := s.(startingDateTime := s.startingDateTime + timeToAdd);
      if s.endingDateTime + timeToAdd > endOfDay then Some(moved.(endingDateTime := endOfDay))
      else Some(moved.(endingDateTime := s.endingDateTime + timeToAdd))
    else None
  }

  /** A slot moved `timeToSubstract` minutes earlier: same length, nothing else changes. */
  function ShiftEarlier(s: Slot, timeToSubstract: int): (r: Slot)
    ensures r.startingDateTime == s.startingDateTime - timeToSubstract
    ensures r.endingDateTime - r.startingDateTime == s.endingDateTime - s.startingDateTime
    ensures r.(startingDateTime := s.startingDateTime, endingDateTime := s.endingDateTime) == s
  {
    s.(startingDateTime := s.startingDateTime - timeToSubstract,
       endingDateTime := s.endingDateTime - timeToSubstract)
  }

  /** Moving a slot that lies before the end of the day earlier and back later restores it;
      moving it later without clamping and back earlier restores it too. */
  lemma ShiftRoundTrip(s: Slot, minutes: int, endOfDay: int)
    ensures s.startingDateTime < endOfDay && s.endingDateTime <= endOfDay ==>
      ShiftLater(ShiftEarlier(s, minutes), minutes, endOfDay) == Some(s)
    ensures s.startingDateTime + minutes < endOfDay && s.endingDateTime + minutes <= endOfDay ==>
      ShiftEarlier(ShiftLater(s, minutes, endOfDay).value, minutes) == s
  {
  }

  /** The rules the one-argument isSpecificSlot dereferences are there for `date`. */
  predicate Classifiable(weeks: seq<WeekDefinition>, rules: seq<ReservationRule>, date: int)
  {
    EffectiveWeekDefinition(weeks, date).Some? && EffectiveReservationRule(rules, date).Some?
  }

  /** `slot.setIsSpecific(isSpecificSlot(slot))`: only the specific flag changes, and
      afterwards it is the classification of the slot itself. */
  function Respecify(weeks: seq<WeekDefinition>, rules: seq<ReservationRule>, s: Slot): (r: Slot)
    requires Classifiable(weeks, rules, s.date)
    ensures r.(isSpecific := s.isSpecific) == s
    ensures r.isSpecific == IsSpecificSlotOfDay(weeks, rules, r)
  {
    var flag := IsSpecificSlotOfDay(weeks, rules, s);
    SpecificOfDayFlagIgnored(weeks, rules, s, flag);
    s.(isSpecific := flag)
  }

  /** What the shift loop applies to every slot: later by `timeToAdd`, clamped to
      `endOfDay`, when the edited slot got longer; earlier by `timeToSubstract` otherwise. */
  datatype ShiftPlan = ShiftPlan(extend: bool, timeToAdd: int, timeToSubstract: int, endOfDay: int)

  /** The loop body of the shift for one slot: the slot to save, or None when it is
      deleted. When the edited slot got longer, the slot is dropped exactly when its new
      start reaches the end of the day, and otherwise moves later with its end clamped to
      the end of the day; when it got shorter, the slot moves earlier as a whole. Only the
      times and the specific flag change, and the flag is recomputed against the new times. */
  function ShiftStep(weeks: seq<WeekDefinition>, rules: seq<ReservationRule>, s: Slot, plan: ShiftPlan): (r: Option<Slot>)
    requires Classifiable(weeks, rules, s.date)
    ensures plan.extend ==> (r.None? <==> s.startingDateTime + plan.timeToAdd >= plan.endOfDay)
    ensures plan.extend && r.Some? ==>
      && r.value.startingDateTime == s.startingDateTime + plan.timeToAdd
      && r.value.endingDateTime == (if s.endingDateTime + plan.timeToAdd > plan.endOfDay then plan.endOfDay
                                    else s.endingDateTime + plan.timeToAdd)
    ensures !plan.extend ==>
      && r.Some?
      && r.value.startingDateTime == s.startingDateTime - plan.timeToSubstract
      && r.value.endingDateTime == s.endingDateTime - plan.timeToSubstract
    ensures r.Some? ==>
      r.value.(startingDateTime := s.startingDateTime, endingDateTime := s.endingDateTime, isSpecific := s.isSpecific) == s
    ensures r.Some? ==> r.value.date == s.date && r.value.isSpecific == IsSpecificSlotOfDay(weeks, rules, r.value)
  {
    if plan.extend then
      var moved := ShiftLater(s, plan.timeToAdd, plan.endOfDay);
      if moved.Some? then Some(Respecify(weeks, rules, moved.value)) else None
    else Some(Respecify(weeks, rules, ShiftEarlier(s, plan.timeToSubstract)))
  }

  /** The table after the loop body for one slot: saved when shifted, deleted when dropped. */
  function StepTable(t: Table, weeks: seq<WeekDefinition>, rules: seq<ReservationRule>, s: Slot, plan: ShiftPlan): Table
    requires Classifiable(weeks, rules, s.date)
  {
    var step := ShiftStep(weeks, rules, s, plan);
    if step.Some? then Save(t, step.value) else DeleteOne(t, s)
  }

  /** The table after the whole shift loop, over the slots in the order given. The
      counter never moves back, and a shift of stored slots (all with a key) hands out no
      key at all. */
  function ApplyShifts(t: Table, order: seq<Slot>, weeks: seq<WeekDefinition>, rules: seq<ReservationRule>,
                       plan: ShiftPlan): (r: Table)
    requires forall s :: s in order ==> Classifiable(weeks, rules, s.date)
    ensures t.nextId <= r.nextId
    ensures (forall s :: s in order ==> s.id != 0) ==> r.nextId == t.nextId
  {
    if order == [] then t
    else
      var init := order[..|order| - 1];
      var last := order[|order| - 1];
      assert order == init + [last];
      StepTable(ApplyShifts(t, init, weeks, rules, plan), weeks, rules, last, plan)
  }

  /** No two slots of the list share a key. */
  predicate DistinctIds(order: seq<Slot>)
  {
    forall i, j :: 0 <= i < j < |order| ==> order[i].id != order[j].id
  }

  /** No slot of the list has the key. */
  predicate NotListed(order: seq<Slot>, id: int)
  {
    forall s :: s in order ==> s.id != id
  }

  /** Dropping the last slot of a list with distinct keys leaves a list with distinct
      keys none of which is the last slot's. */
  lemma DistinctIdsSplit(order: seq<Slot>)
    requires order != [] && DistinctIds(order)
    ensures DistinctIds(order[..|order| - 1])
    ensures NotListed(order[..|order| - 1], order[|order| - 1].id)
  {
    var init := order[..|order| - 1];
    forall i, j | 0 <= i < j < |init| ensures init[i].id != init[j].id {
      assert init[i] == order[i] && init[j] == order[j];
    }
    forall s | s in init ensures s.id != order[|order| - 1].id {
      var i :| 0 <= i < |init| && init[i] == s;
      assert order[i] == s;
    }
  }

  /** One loop body over a table: the other keys keep their rows, the shifted slot is
      stored when a row with its key was there, no row with its key is left when it is
      dropped, and nothing else appears. */
  lemma StepTableMembers(t: Table, weeks: seq<WeekDefinition>, rules: seq<ReservationRule>, s: Slot, plan: ShiftPlan)
    requires Classifiable(weeks, rules, s.date)
    requires s.id != 0
    ensures var r := StepTable(t, weeks, rules, s, plan);
      && r.nextId == t.nextId
      && (forall x :: x in t.rows && x.id != s.id ==> x in r.rows)
      && (forall x :: x in r.rows ==> (x in t.rows && x.id != s.id) || ShiftStep(weeks, rules, s, plan) == Some(x))
      && (ShiftStep(weeks, rules, s, plan).Some? && (exists x :: x in t.rows && x.id == s.id) ==>
            ShiftStep(weeks, rules, s, plan).value in r.rows)
      && (ShiftStep(weeks, rules, s, plan).None? ==> forall x :: x in r.rows ==> x.id != s.id)
  {
    var step := ShiftStep(weeks, rules, s, plan);
    if step.Some? {
      ReplacedMembers(t.rows, step.value);
    }
  }

  /** The shift loop leaves the counter and the rows of keys it does not visit alone. */
  lemma {:induction false} ApplyShiftsKeepsOthers(t: Table, order: seq<Slot>, weeks: seq<WeekDefinition>,
                                                  rules: seq<ReservationRule>, plan: ShiftPlan)
    requires forall s :: s in order ==> Classifiable(weeks, rules, s.date) && s.id != 0
    ensures var r := ApplyShifts(t, order, weeks, rules, plan);
      && r.nextId == t.nextId
      && (forall x :: x in t.rows && NotListed(order, x.id) ==> x in r.rows)
  {
    if order != [] {
      var init := order[..|order| - 1];
      var last := order[|order| - 1];
      assert order == init + [last];
      assert forall s :: s in order <==> s in init || s == last;
      ApplyShiftsKeepsOthers(t, init, weeks, rules, plan);
      StepTableMembers(ApplyShifts(t, init, weeks, rules, plan), weeks, rules, last, plan);
    }
  }

  /** Every row after the shift loop is an untouched row or a shifted slot. */
  lemma {:induction false} ApplyShiftsProvenance(t: Table, order: seq<Slot>, weeks: seq<WeekDefinition>,
                                                 rules: seq<ReservationRule>, plan: ShiftPlan)
    requires forall s :: s in order ==> Classifiable(weeks, rules, s.date) && s.id != 0
    ensures forall x :: x in ApplyShifts(t, order, weeks, rules, plan).rows ==>
      (x in t.rows && NotListed(order, x.id)) || exists s :: s in order && ShiftStep(weeks, rules, s, plan) == Some(x)
  {
    if order != [] {
      var init := order[..|order| - 1];
      var last := order[|order| - 1];
      assert order == init + [last];
      assert forall s :: s in order <==> s in init || s == last;
      ApplyShiftsProvenance(t, init, weeks, rules, plan);
      var before := ApplyShifts(t, init, weeks, rules, plan);
      StepTableMembers(before, weeks, rules, last, plan);
      forall x | x in ApplyShifts(t, order, weeks, rules, plan).rows
        ensures (x in t.rows && NotListed(order, x.id)) || exists s :: s in order && ShiftStep(weeks, rules, s, plan) == Some(x)
      {
        if x in before.rows && x.id != last.id {
          if !(x in t.rows && NotListed(init, x.id)) {
            var s :| s in init && ShiftStep(weeks, rules, s, plan) == Some(x);
          }
        }
      }
    }
  }

  /** Over slots with distinct keys that all have a row, every shifted slot is stored and
      no row is left for a dropped one. */
  lemma ApplyShiftsStoresShifted(t: Table, order: seq<Slot>, weeks: seq<WeekDefinition>,
                                 rules: seq<ReservationRule>, plan: ShiftPlan)
    requires forall s :: s in order ==> Classifiable(weeks, rules, s.date) && s.id != 0
    requires DistinctIds(order)
    requires forall s :: s in order ==> exists x :: x in t.rows && x.id == s.id
    ensures var r := ApplyShifts(t, order, weeks, rules, plan);
      && (forall s :: s in order && ShiftStep(weeks, rules, s, plan).Some? ==> ShiftStep(weeks, rules, s, plan).value in r.rows)
      && (forall s :: s in order && ShiftStep(weeks, rules, s, plan).None? ==> forall x :: x in r.rows ==> x.id != s.id)
  {
    ApplyShiftsStoresKept(t, order, weeks, rules, plan);
    ApplyShiftsClearsDropped(t, order, weeks, rules, plan);
  }

  /** Over slots with distinct keys that all have a row, every shifted slot is stored. */
  lemma {:induction false} ApplyShiftsStoresKept(t: Table, order: seq<Slot>, weeks: seq<WeekDefinition>,
                                                 rules: seq<ReservationRule>, plan: ShiftPlan)
    requires forall s :: s in order ==> Classifiable(weeks, rules, s.date) && s.id != 0
    requires DistinctIds(order)
    requires forall s :: s in order ==> exists x :: x in t.rows && x.id == s.id
    ensures var r := ApplyShifts(t, order, weeks, rules, plan);
      forall s :: s in order && ShiftStep(weeks, rules, s, plan).Some? ==> ShiftStep(weeks, rules, s, plan).value in r.rows
  {
    if order != [] {
      var init := order[..|order| - 1];
      var last := order[|order| - 1];
      assert order == init + [last];
      assert forall s :: s in order <==> s in init || s == last;
      DistinctIdsSplit(order);
      ApplyShiftsStoresKept(t, init, weeks, rules, plan);
      ApplyShiftsKeepsOthers(t, init, weeks, rules, plan);
      var before := ApplyShifts(t, init, weeks, rules, plan);
      var r := ApplyShifts(t, order, weeks, rules, plan);
      assert r == StepTable(before, weeks, rules, last, plan);
      var x0 :| x0 in t.rows && x0.id == last.id;
      assert x0 in before.rows;
      StepTableMembers(before, weeks, rules, last, plan);
      forall s | s in order && ShiftStep(weeks, rules, s, plan).Some?
        ensures ShiftStep(weeks, rules, s, plan).value in r.rows
      {
        if s != last {
          var step := ShiftStep(weeks, rules, s, plan).value;
          assert s in init && s.id != last.id;
                assert step in before.rows && step.id != last.id;
        }
      }
    }
  }

  /** Over slots with distinct keys, no row is left for a dropped slot. */
  lemma {:induction false} ApplyShiftsClearsDropped(t: Table, order: seq<Slot>, weeks: seq<WeekDefinition>,
                                                    rules: seq<ReservationRule>, plan: ShiftPlan)
    requires forall s :: s in order ==> Classifiable(weeks, rules, s.date) && s.id != 0
    requires DistinctIds(order)
    ensures var r := ApplyShifts(t, order, weeks, rules, plan);
      forall s :: s in order && ShiftStep(weeks, rules, s, plan).None? ==> forall x :: x in r.rows ==> x.id != s.id
  {
    if order != [] {
      var init := order[..|order| - 1];
      var last := order[|order| - 1];
      assert order == init + [last];
      DistinctIdsSplit(order);
      ApplyShiftsClearsDropped(t, init, weeks, rules, plan);
      var before := ApplyShifts(t, init, weeks, rules, plan);
      assert ApplyShifts(t, order, weeks, rules, plan) == StepTable(before, weeks, rules, last, plan);
      ClearsDroppedStep(before, init, last, weeks, rules, plan);
    }
  }

  /** One more loop body keeps the dropped slots cleared and clears the new one if it is
      dropped. */
  lemma ClearsDroppedStep(before: Table, init: seq<Slot>, last: Slot, weeks: seq<WeekDefinition>,
                          rules: seq<ReservationRule>, plan: ShiftPlan)
    requires forall s :: s in init ==> Classifiable(weeks, rules, s.date) && s.id != 0
    requires Classifiable(weeks, rules, last.date) && last.id != 0
    requires NotListed(init, last.id)
    requires forall s :: s in init && ShiftStep(weeks, rules, s, plan).None? ==> NotListed(before.rows, s.id)
    ensures forall s :: s in init + [last] && ShiftStep(weeks, rules, s, plan).None? ==>
              NotListed(StepTable(before, weeks, rules, last, plan).rows, s.id)
  {
    forall s | s in init + [last] && ShiftStep(weeks, rules, s, plan).None?
      ensures NotListed(StepTable(before, weeks, rules, last, plan).rows, s.id)
    {
      if s == last {
        StepTableMembers(before, weeks, rules, last, plan);
      } else {
        assert s in init;
        StepKeepsAbsent(before, weeks, rules, last, plan, s.id);
      }
    }
  }

  /** A loop body on another key brings no row with the key back. */
  lemma StepKeepsAbsent(t: Table, weeks: seq<WeekDefinition>, rules: seq<ReservationRule>, s: Slot, plan: ShiftPlan,
                        id: int)
    requires Classifiable(weeks, rules, s.date) && s.id != 0 && s.id != id
    requires NotListed(t.rows, id)
    ensures NotListed(StepTable(t, weeks, rules, s, plan).rows, id)
  {
    StepTableMembers(t, weeks, rules, s, plan);
  }

  /** The outcome of the shift loop over slots with distinct keys that all have a row: the
      rows of other keys stay, every shifted slot is stored, no row is left for a dropped
      slot, and every row is either an untouched one or a shifted slot. */
  lemma ApplyShiftsOutcome(t: Table, order: seq<Slot>, weeks: seq<WeekDefinition>,
                           rules: seq<ReservationRule>, plan: ShiftPlan)
    requires forall s :: s in order ==> Classifiable(weeks, rules, s.date) && s.id != 0
    requires DistinctIds(order)
    requires forall s :: s in order ==> exists x :: x in t.rows && x.id == s.id
    ensures var r := ApplyShifts(t, order, weeks, rules, plan);
      && r.nextId == t.nextId
      && (forall x :: x in t.rows && NotListed(order, x.id) ==> x in r.rows)
      && (forall s :: s in order && ShiftStep(weeks, rules, s, plan).Some? ==> ShiftStep(weeks, rules, s, plan).value in r.rows)
      && (forall s :: s in order && ShiftStep(weeks, rules, s, plan).None? ==> forall x :: x in r.rows ==> x.id != s.id)
      && (forall x :: x in r.rows ==>
            (x in t.rows && NotListed(order, x.id)) || exists s :: s in order && ShiftStep(weeks, rules, s, plan) == Some(x))
  {
    ApplyShiftsKeepsOthers(t, order, weeks, rules, plan);
    ApplyShiftsProvenance(t, order, weeks, rules, plan);
    ApplyShiftsStoresShifted(t, order, weeks, rules, plan);
  }

  /** The loop body of the shift for one slot: moves it and, when it is kept, stores it
      with its specific flag recomputed; a slot pushed past the end of the day is deleted. */
  method ShiftOne(store: SlotStore, weeks: seq<WeekDefinition>, rules: seq<ReservationRule>, slotToShift: Slot,
                  plan: ShiftPlan)
    requires store.Valid()
    requires Classifiable(weeks, rules, slotToShift.date)
    modifies store
    ensures store.Valid()
    ensures Table(store.rows, store.nextId)
            == StepTable(Table(old(store.rows), old(store.nextId)), weeks, rules, slotToShift, plan)
  {
    var shifted := MoveSlot(weeks, rules, slotToShift, plan);
    if shifted.Some? {
      var _ := SaveSlot(store, shifted.value);
    } else {
      DeleteSlot(store, slotToShift);
    }
  }

  /** The moves of the loop body on the slot itself, before it is stored. */
  method MoveSlot(weeks: seq<WeekDefinition>, rules: seq<ReservationRule>, slotToShift: Slot, plan: ShiftPlan)
    returns (shifted: Option<Slot>)
    requires Classifiable(weeks, rules, slotToShift.date)
    ensures shifted == ShiftStep(weeks, rules, slotToShift, plan)
  {
    if plan.extend {
      var moved := MoveLater(slotToShift, plan.timeToAdd, plan.endOfDay);
      if moved.Some? {
        shifted := Some(Respecify(weeks, rules, moved.value));
      } else {
        shifted := None;
      }
    } else {
      var s := MoveEarlier(slotToShift, plan.timeToSubstract);
      shifted := Some(Respecify(weeks, rules, s));
    }
  }

  /** The earlier move of the loop body: both ends move back by the same amount. */
  method MoveEarlier(slotToShift: Slot, timeToSubstract: int) returns (moved: Slot)
    ensures moved == ShiftEarlier(slotToShift, timeToSubstract)
  {
    moved := slotToShift;
    moved := moved.(startingDateTime := moved.startingDateTime - timeToSubstract);
    moved := moved.(endingDateTime := moved.endingDateTime - timeToSubstract);
  }

  /** The later move of the loop body: the start moves, the end moves or is clamped to the
      end of the day, and a slot whose new start reaches the end of the day is dropped. */
  method MoveLater(slotToShift: Slot, timeToAdd: int, endOfDay: int) returns (moved: Option<Slot>)
    ensures moved == ShiftLater(slotToShift, timeToAdd, endOfDay)
  {
    var s := slotToShift;
    if s.startingDateTime + timeToAdd < endOfDay {
      s := s.(startingDateTime := s.startingDateTime + timeToAdd);
      if s.endingDateTime + timeToAdd > endOfDay {
        s := s.(endingDateTime := endOfDay);
      } else {
        s := s.(endingDateTime := s.endingDateTime + timeToAdd);
      }
      moved := Some(s);
    } else {
      moved := None;
    }
  }

  /** The shift loop of updateSlotWithShift, over the slots in the order given. */
  method ShiftSlots(store: SlotStore, weeks: seq<WeekDefinition>, rules: seq<ReservationRule>,
                    listSlotToShift: seq<Slot>, plan: ShiftPlan)
    requires store.Valid()
    requires forall s :: s in listSlotToShift ==> Classifiable(weeks, rules, s.date)
    modifies store
    ensures store.Valid()
    ensures Table(store.rows, store.nextId)
            == ApplyShifts(Table(old(store.rows), old(store.nextId)), listSlotToShift, weeks, rules, plan)
  {
    ghost var t0 := Table(store.rows, store.nextId);
    var i := 0;
    while i < |listSlotToShift|
      invariant 0 <= i <= |listSlotToShift|
      invariant store.Valid()
      invariant forall s :: s in listSlotToShift[..i] ==> Classifiable(weeks, rules, s.date)
      invariant Table(store.rows, store.nextId) == ApplyShifts(t0, listSlotToShift[..i], weeks, rules, plan)
    {
      var slotToShift := listSlotToShift[i];
      PrefixSnoc(listSlotToShift, i);
      ApplyShiftsSnoc(t0, listSlotToShift[..i], slotToShift, weeks, rules, plan);
      ShiftOne(store, weeks, rules, slotToShift, plan);
      i := i + 1;
    }
    assert listSlotToShift[..i] == listSlotToShift;
  }

  /** The first `i + 1` slots are the first `i` followed by slot `i`. */
  lemma PrefixSnoc(list: seq<Slot>, i: int)
    requires 0 <= i < |list|
    ensures list[..i + 1] == list[..i] + [list[i]]
  {
  }

  /** One more slot of the loop is one more step on the table. */
  lemma ApplyShiftsSnoc(t: Table, done: seq<Slot>, s: Slot, weeks: seq<WeekDefinition>, rules: seq<ReservationRule>,
                        plan: ShiftPlan)
    requires forall x :: x in done ==> Classifiable(weeks, rules, x.date)
    requires Classifiable(weeks, rules, s.date)
    ensures forall x :: x in done + [s] ==> Classifiable(weeks, rules, x.date)
    ensures ApplyShifts(t, done + [s], weeks, rules, plan)
            == StepTable(ApplyShifts(t, done, weeks, rules, plan), weeks, rules, s, plan)
  {
    assert (done + [s])[..|done|] == done;
  }

  /** The stream filters of updateSlotWithShift, by what they keep. */
  datatype Criterion =
    | StartsAfter(slot: Slot)      // starts after the edited slot
    | AbsorbedBy(slot: Slot)       // persisted, starts after the edited slot and ends within it
    | NotAbsorbedBy(slot: Slot)    // what removeAll leaves of the slots after the edited one
    | PersistedOnly                // has a key
    | UnsavedOnly                  // has no key yet

  predicate Holds(c: Criterion, x: Slot)
  {
    match c
    case StartsAfter(slot) => x.startingDateTime > slot.startingDateTime
    case AbsorbedBy(slot) =>
      x.startingDateTime > slot.startingDateTime && x.endingDateTime <= slot.endingDateTime && x.id != 0
    case NotAbsorbedBy(slot) => !(x.startingDateTime > slot.startingDateTime && x.endingDateTime <= slot.endingDateTime && x.id != 0)
    case PersistedOnly => x.id != 0
    case UnsavedOnly => x.id == 0
  }

  /** `list.stream().filter(...).collect(toList())`: the slots that meet the criterion, in list order. */
  function Select(list: seq<Slot>, c: Criterion): (r: seq<Slot>)
    ensures forall x :: x in r <==> x in list && Holds(c, x)
    ensures |r| <= |list|
  {
    if list == [] then []
    else (if Holds(c, list[0]) then [list[0]] else []) + Select(list[1..], c)
  }

  /** The tail of a chronological list is chronological. */
  lemma ChronologicalTail(list: seq<Slot>)
    requires list != [] && Chronological(list)
    ensures Chronological(list[1..])
    ensures forall y :: y in list[1..] ==> list[0].startingDateTime < y.startingDateTime
  {
    var rest := list[1..];
    forall i, j | 0 <= i < j < |rest| ensures rest[i].startingDateTime < rest[j].startingDateTime {
      assert rest[i] == list[i + 1] && rest[j] == list[j + 1];
    }
    forall y | y in rest ensures list[0].startingDateTime < y.startingDateTime {
      var k :| 0 <= k < |rest| && rest[k] == y;
      assert list[k + 1] == y;
    }
  }

  /** A chronological arrangement of a collection of slots is the only one: two
      chronological lists with the same slots are equal. */
  lemma {:induction false} ChronologicalUnique(a: seq<Slot>, b: seq<Slot>)
    requires Chronological(a) && Chronological(b)
    requires multiset(a) == multiset(b)
    ensures a == b
    decreases |a|
  {
    if a != [] {
      ChronologicalSameHead(a, b);
      SameTails(a, b);
      ChronologicalTail(a);
      ChronologicalTail(b);
      ChronologicalUnique(a[1..], b[1..]);
    }
  }

  /** Two chronological lists with the same slots start with the same slot. */
  lemma ChronologicalSameHead(a: seq<Slot>, b: seq<Slot>)
    requires Chronological(a) && Chronological(b)
    requires multiset(a) == multiset(b) && a != []
    ensures b != [] && a[0] == b[0]
  {
    assert a[0] in multiset(b);
    assert b[0] in multiset(a);
    var k :| 0 <= k < |b| && b[k] == a[0];
    var m :| 0 <= m < |a| && a[m] == b[0];
    assert a[0].startingDateTime <= a[m].startingDateTime;
    assert b[0].startingDateTime <= b[k].startingDateTime;
  }

  /** Taking the same head off two lists with the same slots leaves lists with the same slots. */
  lemma SameTails(a: seq<Slot>, b: seq<Slot>)
    requires a != [] && b != [] && a[0] == b[0]
    requires multiset(a) == multiset(b)
    ensures multiset(a[1..]) == multiset(b[1..])
  {
    assert a == [a[0]] + a[1..];
    assert b == [b[0]] + b[1..];
    var head := multiset{a[0]};
    assert head + multiset(a[1..]) == head + multiset(b[1..]);
    forall x ensures multiset(a[1..])[x] == multiset(b[1..])[x] {
      assert (head + multiset(a[1..]))[x] == (head + multiset(b[1..]))[x];
    }
  }

  /** Filtering keeps the slots in chronological order. */
  lemma {:induction false} SelectKeepsOrder(list: seq<Slot>, c: Criterion)
    requires Chronological(list)
    ensures Chronological(Select(list, c))
  {
    if list != [] {
      ChronologicalTail(list);
      SelectKeepsOrder(list[1..], c);
      if Holds(c, list[0]) {
        ChronologicalCons(list[0], Select(list[1..], c));
      }
    }
  }

  /** The keys createListSlot hands out, written back into the list: the slots without a
      key get the next keys in list order, the others stay as they are. */
  function AssignIds(list: seq<Slot>, nextId: int): (r: seq<Slot>)
    ensures |r| == |list|
    ensures forall i :: 0 <= i < |list| ==> r[i].(id := list[i].id) == list[i]
    ensures forall i :: 0 <= i < |list| && list[i].id != 0 ==> r[i] == list[i]
  {
    if list == [] then []
    else if list[0].id == 0 then [list[0].(id := nextId)] + AssignIds(list[1..], nextId + 1)
    else [list[0]] + AssignIds(list[1..], nextId)
  }

  /** The slots to shift, sorted by start, are the persisted slots together with the
      newly created ones: writing the new keys back into a chronological list gives a
      chronological list with exactly those slots. */
  lemma {:induction false} AssignIdsIsTheSortedUnion(list: seq<Slot>, nextId: int)
    requires Chronological(list)
    ensures Chronological(AssignIds(list, nextId))
    ensures multiset(AssignIds(list, nextId))
            == multiset(Select(list, PersistedOnly) + Numbered(Select(list, UnsavedOnly), nextId))
  {
    AssignIdsSameMultiset(list, nextId);
    var r := AssignIds(list, nextId);
    forall i, j | 0 <= i < j < |r| ensures r[i].startingDateTime < r[j].startingDateTime {
      assert r[i].startingDateTime == list[i].startingDateTime;
      assert r[j].startingDateTime == list[j].startingDateTime;
    }
  }

  lemma {:induction false} AssignIdsSameMultiset(list: seq<Slot>, nextId: int)
    ensures multiset(AssignIds(list, nextId))
            == multiset(Select(list, PersistedOnly) + Numbered(Select(list, UnsavedOnly), nextId))
  {
    if list != [] {
      var x := list[0];
      var rest := list[1..];
      var persisted := Select(rest, PersistedOnly);
      var unsaved := Select(rest, UnsavedOnly);
      if x.id == 0 {
        AssignIdsSameMultiset(rest, nextId + 1);
        assert AssignIds(list, nextId) == [x.(id := nextId)] + AssignIds(rest, nextId + 1);
        assert Select(list, PersistedOnly) == persisted;
        assert Select(list, UnsavedOnly) == [x] + unsaved;
        assert ([x] + unsaved)[1..] == unsaved;
        assert Numbered([x] + unsaved, nextId) == [x.(id := nextId)] + Numbered(unsaved, nextId + 1);
      } else {
        AssignIdsSameMultiset(rest, nextId);
        assert AssignIds(list, nextId) == [x] + AssignIds(rest, nextId);
        assert Select(list, PersistedOnly) == [x] + persisted;
        assert Select(list, UnsavedOnly) == unsaved;
      }
    }
  }

  /** No two slots with a key share it. */
  predicate PersistedDistinct(list: seq<Slot>)
  {
    forall i, j :: 0 <= i < j < |list| && list[i].id != 0 ==> list[i].id != list[j].id
  }

  /** Writing the new keys back gives every slot a key, and no two the same one, when the
      slots that had a key had distinct keys below `nextId`. */
  lemma AssignIdsKeys(list: seq<Slot>, nextId: int)
    requires nextId > 0
    requires forall s :: s in list ==> 0 <= s.id < nextId
    requires PersistedDistinct(list)
    ensures var r := AssignIds(list, nextId);
      && DistinctIds(r)
      && (forall i :: 0 <= i < |r| ==> r[i].id != 0)
      && (forall i :: 0 <= i < |r| && list[i].id == 0 ==>
            nextId <= r[i].id < nextId + |Select(list, UnsavedOnly)|)
  {
    var r := AssignIds(list, nextId);
    NewKeys(list, nextId);
    forall i, j | 0 <= i < j < |r| ensures r[i].id != r[j].id {
      assert list[i] in list && list[j] in list;
    }
  }

  /** The new keys run from `nextId` on, strictly increasing along the list, one per slot
      without a key. */
  lemma {:induction false} NewKeys(list: seq<Slot>, nextId: int)
    ensures var r := AssignIds(list, nextId);
      && (forall i :: 0 <= i < |r| && list[i].id == 0 ==> nextId <= r[i].id < nextId + |Select(list, UnsavedOnly)|)
      && (forall i, j :: 0 <= i < j < |r| && list[i].id == 0 && list[j].id == 0 ==> r[i].id < r[j].id)
  {
    if list != [] {
      var x := list[0];
      var rest := list[1..];
      var n := if x.id == 0 then nextId + 1 else nextId;
      NewKeys(rest, n);
      var r := AssignIds(list, nextId);
      var tail := AssignIds(rest, n);
      assert r == [r[0]] + tail;
      assert |Select(list, UnsavedOnly)| == (if x.id == 0 then 1 else 0) + |Select(rest, UnsavedOnly)|;
      forall i | 0 < i < |r| ensures r[i] == tail[i - 1] && list[i] == rest[i - 1] {
      }
    }
  }

  /** The order of the shift keeps the keys distinct. */
  lemma ReverseKeepsDistinctIds(list: seq<Slot>)
    requires DistinctIds(list)
    ensures DistinctIds(Reverse(list))
  {
    var r := Reverse(list);
    forall i, j | 0 <= i < j < |r| ensures r[i].id != r[j].id {
      assert r[i] == list[|list| - 1 - i] && r[j] == list[|list| - 1 - j];
    }
  }

  /** `Collections.reverse`. */
  function Reverse(list: seq<Slot>): (r: seq<Slot>)
    ensures |r| == |list|
    ensures forall i :: 0 <= i < |list| ==> r[i] == list[|list| - 1 - i]
    ensures multiset(r) == multiset(list)
  {
    if list == [] then []
    else
      assert list == [list[0]] + list[1..];
      Reverse(list[1..]) + [list[0]]
  }

  /** The earliest start of a list of slots (`stream().min(compare starts)`). */
  function EarliestStart(list: seq<Slot>): (r: int)
    requires list != []
    ensures exists s :: s in list && s.startingDateTime == r
    ensures forall s :: s in list ==> r <= s.startingDateTime
  {
    if |list| == 1 then list[0].startingDateTime
    else
      var rest := EarliestStart(list[1..]);
      if list[0].startingDateTime <= rest then list[0].startingDateTime else rest
  }

  /** In a chronological list the earliest start is the first one. */
  lemma ChronologicalEarliestIsFirst(list: seq<Slot>)
    requires list != [] && Chronological(list)
    ensures EarliestStart(list) == list[0].startingDateTime
  {
    forall s | s in list ensures list[0].startingDateTime <= s.startingDateTime {
      var k :| 0 <= k < |list| && list[k] == s;
      if k > 0 {
        assert list[0].startingDateTime < list[k].startingDateTime;
      }
    }
    assert list[0] in list;
  }
}
