/** Day-by-day materialisation of the planning of a form (SlotService.buildListSlot):
    for every date it emits either one closed slot for a closing day, or a walk of the
    day from its earliest start to its latest end that takes persisted slots verbatim
    and fills the gaps from the day's templates (working day) or with closed slots of
    the week's shortest duration (non-working day). */
module Materialise {
  import opened SlotTypes
  import opened RuleLookup
  import opened Store

  /** findSlotsByIdFormAndDateRange: the persisted slots of the form inside [from, to],
      each with its derived date and time fields recomputed. */
  function FindSlotsByIdFormAndDateRange(rows: seq<Slot>, idForm: int, from: int, to: int): (r: seq<Slot>)
    ensures forall x :: x in r ==> DerivedFieldsAgree(x)
    ensures forall x :: x in r <==>
      exists y :: y in rows && y.idForm == idForm && from <= y.startingDateTime && y.endingDateTime <= to
                  && x == AddDateAndTimeToSlot(y)
  {
    if rows == [] then []
    else
      var y := rows[0];
      assert forall z :: z in rows <==> z == y || z in rows[1..];
      (if y.idForm == idForm && from <= y.startingDateTime && y.endingDateTime <= to
       then [AddDateAndTimeToSlot(y)] else [])
        + FindSlotsByIdFormAndDateRange(rows[1..], idForm, from, to)
  }

  /** The map of `mapSlots.put(slot.getStartingDateTime(), slot)` over a list, in list order:
      keyed by starting date-time, the last slot of the list with a given start wins. */
  function MapByStart(list: seq<Slot>): (m: map<int, Slot>)
    ensures forall k :: k in m <==> exists s :: s in list && s.startingDateTime == k
    ensures forall k :: k in m ==> m[k] in list && m[k].startingDateTime == k
    ensures forall i :: 0 <= i < |list| && (forall j :: i < j < |list| ==> list[j].startingDateTime != list[i].startingDateTime)
              ==> m[list[i].startingDateTime] == list[i]
  {
    if list == [] then map[]
    else
      var init := list[..|list| - 1];
      var last := list[|list| - 1];
      assert list == init + [last];
      MapByStartLast(init, last, MapByStart(init));
      MapByStart(init)[last.startingDateTime := last]
  }

  /** Putting one more slot into the map of a list gives the map of the longer list. */
  lemma MapByStartLast(init: seq<Slot>, last: Slot, m0: map<int, Slot>)
    requires forall k :: k in m0 <==> exists s :: s in init && s.startingDateTime == k
    requires forall k :: k in m0 ==> m0[k] in init && m0[k].startingDateTime == k
    requires forall i :: 0 <= i < |init| && (forall j :: i < j < |init| ==> init[j].startingDateTime != init[i].startingDateTime)
               ==> m0[init[i].startingDateTime] == init[i]
    ensures var list, m := init + [last], m0[last.startingDateTime := last];
      && (forall k :: k in m <==> exists s :: s in list && s.startingDateTime == k)
      && (forall k :: k in m ==> m[k] in list && m[k].startingDateTime == k)
      && (forall i :: 0 <= i < |list| && (forall j :: i < j < |list| ==> list[j].startingDateTime != list[i].startingDateTime)
            ==> m[list[i].startingDateTime] == list[i])
  {
    var list, m := init + [last], m0[last.startingDateTime := last];
    forall k | k in m ensures exists s :: s in list && s.startingDateTime == k {
      if k != last.startingDateTime {
        var s :| s in init && s.startingDateTime == k;
        assert s in list;
      } else {
        assert last in list;
      }
    }
    forall i | 0 <= i < |list| && (forall j :: i < j < |list| ==> list[j].startingDateTime != list[i].startingDateTime)
      ensures m[list[i].startingDateTime] == list[i]
    {
      if i < |init| {
        assert list[|init|] == last;
        assert list[i] == init[i];
        forall j | i < j < |init| ensures init[j].startingDateTime != init[i].startingDateTime {
          assert list[j] == init[j];
        }
      }
    }
  }

  lemma MapByStartSnoc(list: seq<Slot>, i: int)
    requires 0 <= i < |list|
    ensures MapByStart(list[..i + 1]) == MapByStart(list[..i])[list[i].startingDateTime := list[i]]
  {
    assert list[..i + 1][..i] == list[..i];
  }

  /** buildMapSlotsByIdFormAndDateRangeWithDateForKey. */
  method BuildMapSlotsByIdFormAndDateRangeWithDateForKey(store: SlotStore, idForm: int, from: int, to: int)
    returns (m: map<int, Slot>)
    ensures m == MapByStart(FindSlotsByIdFormAndDateRange(store.rows, idForm, from, to))
  {
    var list := FindSlotsByIdFormAndDateRange(store.rows, idForm, from, to);
    m := map[];
    var i := 0;
    while i < |list|
      invariant 0 <= i <= |list|
      invariant m == MapByStart(list[..i])
    {
      MapByStartSnoc(list, i);
      m := m[list[i].startingDateTime := list[i]];
      i := i + 1;
    }
    assert list[..|list|] == list;
  }

  /** A slot map as the walk sees it: keyed by start, every slot within one day with
      its derived fields computed. */
  predicate SlotMapOk(slots: map<int, Slot>)
  {
    forall k :: k in slots ==> slots[k].startingDateTime == k && WithinOneDay(slots[k]) && DerivedFieldsAgree(slots[k])
  }

  /** Every persisted row of the form lies within one day, as the walks need: a row that
      crossed midnight would send the walk back to an earlier time of the day. */
  predicate FormRowsWithinOneDay(rows: seq<Slot>, idForm: int)
  {
    forall x :: x in rows && x.idForm == idForm ==> WithinOneDay(x)
  }

  /** The map built from well-formed persisted rows is one the walk can use. */
  lemma MapOfStoreOk(rows: seq<Slot>, idForm: int, from: int, to: int)
    requires FormRowsWithinOneDay(rows, idForm)
    ensures SlotMapOk(MapByStart(FindSlotsByIdFormAndDateRange(rows, idForm, from, to)))
  {
    var list := FindSlotsByIdFormAndDateRange(rows, idForm, from, to);
    forall x | x in list ensures WithinOneDay(x) {
      var y :| y in rows && y.idForm == idForm && from <= y.startingDateTime && y.endingDateTime <= to
               && x == AddDateAndTimeToSlot(y);
    }
  }

  /** What fills a gap of the walk where no persisted slot starts: the day's templates
      on a working day, closed slots of a fixed duration on a non-working day. */
  datatype Filler = FromTimeSlots(timeSlots: seq<TimeSlot>) | ClosedEvery(duration: int)

  predicate FillerOk(filler: Filler)
  {
    match filler
    case FromTimeSlots(timeSlots) => forall t :: t in timeSlots ==> ValidTimeSlot(t)
    case ClosedEvery(duration) => duration > 0
  }

  /** The closed slot buildListSlot builds with the rule's capacity on all three counters. */
  function ClosedSlot(idForm: int, start: int, end: int, maxCapacity: int): (r: Slot)
    ensures r.id == 0 && r.idForm == idForm && r.startingDateTime == start && r.endingDateTime == end
    ensures !r.isOpen && !r.isSpecific && r.nbPlacesTaken == 0
    ensures r.maxCapacity == maxCapacity && r.nbRemainingPlaces == maxCapacity
    ensures r.nbPotentialRemainingPlaces == maxCapacity
    ensures DerivedFieldsAgree(r)
  {
    BuildSlot(idForm, Period(start, end), maxCapacity, maxCapacity, maxCapacity, 0, false, false)
  }

  /** The slot synthesised from a template: its own capacity when non-zero, else the rule's. */
  function SlotFromTimeSlot(idForm: int, date: int, t: TimeSlot, maxCapacity: int): (r: Slot)
    ensures r.id == 0 && r.idForm == idForm
    ensures r.startingDateTime == AtTime(date, t.startingTime) && r.endingDateTime == AtTime(date, t.endingTime)
    ensures r.maxCapacity == (if t.maxCapacity != 0 then t.maxCapacity else maxCapacity)
    ensures r.nbRemainingPlaces == r.maxCapacity && r.nbPotentialRemainingPlaces == r.maxCapacity
    ensures r.nbPlacesTaken == 0 && r.isOpen == t.isOpen && !r.isSpecific
    ensures DerivedFieldsAgree(r)
  {
    var capacity := if t.maxCapacity != 0 then t.maxCapacity else maxCapacity;
    BuildSlot(idForm, Period(AtTime(date, t.startingTime), AtTime(date, t.endingTime)),
              capacity, capacity, capacity, 0, t.isOpen, false)
  }

  /** The next stop of the closed walk: one duration further, clamped to the day's end.
      The clamp is taken on the minute count, before any wrap at midnight. */
  function ClosedStep(t: int, duration: int, max: int): (r: int)
    requires duration > 0
    ensures t < max ==> t < r <= max && r - t <= duration
    ensures t < max && t + duration <= max ==> r == t + duration
    ensures t >= max ==> r == max
  {
    if t + duration > max then max else t + duration
  }

  /** The step as the source writes it: `LocalTime.plusMinutes` wraps at midnight, and
      only then is the result compared with the day's end. */
  function ClosedStepAsWritten(t: int, duration: int, max: int): (r: int)
    requires 0 <= max
    ensures 0 <= r < MinutesPerDay || r == max
    ensures t + duration < MinutesPerDay && t + duration <= max && 0 <= t + duration ==> r == t + duration
  {
    var w := (t + duration) % MinutesPerDay;
    if w > max then max else w
  }

  /** The slot that fills the gap at time `t`, if the filler has one: on a working day the
      slot of the first template starting at `t`, none when no template starts then; on a
      non-working day always a closed slot up to the next step. Either way a new slot of
      the form that starts at `t`, is not specific and has nothing taken. */
  function FillGap(idForm: int, date: int, filler: Filler, maxCapacity: int, t: int, max: int): (r: Option<Slot>)
    requires FillerOk(filler)
    ensures r.None? <==> filler.FromTimeSlots? && forall x :: x in filler.timeSlots ==> x.startingTime != t
    ensures r.Some? ==> && r.value.id == 0 && r.value.idForm == idForm && r.value.startingDateTime == AtTime(date, t)
                        && !r.value.isSpecific && r.value.nbPlacesTaken == 0
    ensures filler.FromTimeSlots? && r.Some? ==>
      exists x :: x in filler.timeSlots && x.startingTime == t
                  && r.value.endingDateTime == AtTime(date, x.endingTime) && r.value.isOpen == x.isOpen
    ensures filler.ClosedEvery? && r.Some? ==>
      !r.value.isOpen && r.value.endingDateTime == AtTime(date, ClosedStep(t, filler.duration, max))
  {
    match filler
    case FromTimeSlots(timeSlots) =>
      var timeSlot := TimeSlotWithStartingTime(timeSlots, t);
      if timeSlot.Some? then Some(SlotFromTimeSlot(idForm, date, timeSlot.value, maxCapacity)) else None
    case ClosedEvery(duration) =>
      Some(ClosedSlot(idForm, AtTime(date, t), AtTime(date, ClosedStep(t, duration, max)), maxCapacity))
  }

  /** A persisted slot that starts at minute `t` of `date` ends later that same day. */
  lemma PersistedSlotEndsLater(s: Slot, date: int, t: int)
    requires 0 <= t < MinutesPerDay
    requires s.startingDateTime == AtTime(date, t) && WithinOneDay(s)
    ensures DateOf(s.endingDateTime) == date
    ensures s.endingDateTime == AtTime(date, TimeOf(s.endingDateTime))
    ensures t < TimeOf(s.endingDateTime)
  {
    AtTimeParts(date, t);
    DateTimeParts(s.endingDateTime);
  }

  /** The slot the walk emits at minute `t`: the persisted one starting there, else the filler's. */
  function NextPiece(idForm: int, date: int, slots: map<int, Slot>, filler: Filler, maxCapacity: int,
                     t: int, max: int): (r: Option<Slot>)
    requires SlotMapOk(slots) && FillerOk(filler)
    requires 0 <= t < MinutesPerDay && 0 <= max < MinutesPerDay
    ensures AtTime(date, t) in slots ==> r == Some(slots[AtTime(date, t)])
    ensures AtTime(date, t) !in slots ==> r == FillGap(idForm, date, filler, maxCapacity, t, max)
    ensures r.None? <==> AtTime(date, t) !in slots && filler.FromTimeSlots?
                         && forall x :: x in filler.timeSlots ==> x.startingTime != t
    ensures r.Some? ==> r.value.startingDateTime == AtTime(date, t) && DerivedFieldsAgree(r.value)
    ensures r.Some? ==> DateOf(r.value.endingDateTime) == date
                         && r.value.endingDateTime == AtTime(date, TimeOf(r.value.endingDateTime))
    ensures r.Some? ==> t < TimeOf(r.value.endingDateTime) || TimeOf(r.value.endingDateTime) == max
  {
    var dt := AtTime(date, t);
    if dt in slots then
      PersistedSlotEndsLater(slots[dt], date, t);
      Some(slots[dt])
    else
      match filler
      case FromTimeSlots(timeSlots) =>
        var timeSlot := TimeSlotWithStartingTime(timeSlots, t);
        if timeSlot.Some? then
          assert ValidTimeSlot(timeSlot.value);
          AtTimeParts(date, timeSlot.value.endingTime);
          FillGap(idForm, date, filler, maxCapacity, t, max)
        else None
      case ClosedEvery(duration) =>
        AtTimeParts(date, ClosedStep(t, duration, max));
        FillGap(idForm, date, filler, maxCapacity, t, max)
  }

  /** A measure that every emitted piece lowers: a piece either moves strictly later in
      the day or lands on the day's end. */
  function WalkMeasure(t: int, max: int): int
  {
    if t == max then 0 else if t < max then 2 * MinutesPerDay + 1 - t else MinutesPerDay + 1 - t
  }

  /** The inner `while (timeTemp != max)` loops of buildListSlot, from minute `t` of `date`. */
  function Walk(idForm: int, date: int, slots: map<int, Slot>, filler: Filler, maxCapacity: int,
                t: int, max: int): seq<Slot>
    requires SlotMapOk(slots) && FillerOk(filler)
    requires 0 <= t < MinutesPerDay && 0 <= max < MinutesPerDay
    decreases WalkMeasure(t, max)
  {
    if t == max then []
    else
      var piece := NextPiece(idForm, date, slots, filler, maxCapacity, t, max);
      if piece.None? then []
      else [piece.value] + Walk(idForm, date, slots, filler, maxCapacity, TimeOf(piece.value.endingDateTime), max)
  }

  /** The slots are listed in strictly increasing order of their start. */
  predicate Chronological(r: seq<Slot>)
  {
    forall i, j :: 0 <= i < j < |r| ==> r[i].startingDateTime < r[j].startingDateTime
  }

  /** A slot that starts before every slot of a chronological list can head it. */
  lemma ChronologicalCons(x: Slot, tail: seq<Slot>)
    requires Chronological(tail)
    requires forall y :: y in tail ==> x.startingDateTime < y.startingDateTime
    ensures Chronological([x] + tail)
  {
    var r := [x] + tail;
    forall i, j | 0 <= i < j < |r| ensures r[i].startingDateTime < r[j].startingDateTime {
      assert r[j] == tail[j - 1] && tail[j - 1] in tail;
      if i > 0 {
        assert r[i] == tail[i - 1];
      }
    }
  }

  /** Putting before a contiguous list a slot that ends where the list starts keeps it
      contiguous. */
  lemma ContiguousCons(x: Slot, tail: seq<Slot>)
    requires forall i :: 0 < i < |tail| ==> tail[i].startingDateTime == tail[i - 1].endingDateTime
    requires tail != [] ==> tail[0].startingDateTime == x.endingDateTime
    ensures var r := [x] + tail;
      forall i :: 0 < i < |r| ==> r[i].startingDateTime == r[i - 1].endingDateTime
  {
    var r := [x] + tail;
    forall i | 0 < i < |r| ensures r[i].startingDateTime == r[i - 1].endingDateTime {
      if i == 1 {
        assert r[0] == x && r[1] == tail[0];
      } else {
        assert r[i] == tail[i - 1] && r[i - 1] == tail[i - 2];
      }
    }
  }

  /** A walk from minute `t` starts at `t`, stays on its date, is chronological and
      contiguous: every slot starts where the previous one ended. */
  lemma {:induction false} WalkIsContiguous(idForm: int, date: int, slots: map<int, Slot>, filler: Filler,
                                            maxCapacity: int, t: int, max: int)
    requires SlotMapOk(slots) && FillerOk(filler)
    requires 0 <= t < MinutesPerDay && 0 <= max < MinutesPerDay
    ensures var r := Walk(idForm, date, slots, filler, maxCapacity, t, max);
      && (r != [] ==> r[0].startingDateTime == AtTime(date, t))
      && (forall s :: s in r ==> DateOf(s.startingDateTime) == date && AtTime(date, t) <= s.startingDateTime)
      && (forall s :: s in r ==> DerivedFieldsAgree(s))
      && (forall i :: 0 < i < |r| ==> r[i].startingDateTime == r[i - 1].endingDateTime)
      && Chronological(r)
    decreases WalkMeasure(t, max)
  {
    var r := Walk(idForm, date, slots, filler, maxCapacity, t, max);
    if t != max {
      var piece := NextPiece(idForm, date, slots, filler, maxCapacity, t, max);
      AtTimeParts(date, t);
      if piece.Some? {
        var next := TimeOf(piece.value.endingDateTime);
        var rest := Walk(idForm, date, slots, filler, maxCapacity, next, max);
        WalkIsContiguous(idForm, date, slots, filler, maxCapacity, next, max);
        assert r == [piece.value] + rest;
        if rest != [] {
          assert next != max;
          assert AtTime(date, t) < AtTime(date, next);
        }
        ContiguousCons(piece.value, rest);
        ChronologicalCons(piece.value, rest);
      }
    }
  }

  /** A gap slot of the closed walk: closed, not specific, nothing taken, the rule's capacity. */
  predicate IsClosedSlotOf(idForm: int, maxCapacity: int, s: Slot)
  {
    s == ClosedSlot(idForm, s.startingDateTime, s.endingDateTime, maxCapacity)
  }

  /** Every slot of a walk is a persisted slot emitted verbatim, or a gap slot of the filler:
      a template slot of the day on a working day, a closed slot otherwise. */
  lemma {:induction false} WalkProvenance(idForm: int, date: int, slots: map<int, Slot>, filler: Filler,
                                          maxCapacity: int, t: int, max: int)
    requires SlotMapOk(slots) && FillerOk(filler)
    requires 0 <= t < MinutesPerDay && 0 <= max < MinutesPerDay
    ensures forall s :: s in Walk(idForm, date, slots, filler, maxCapacity, t, max) ==>
      || s in slots.Values
      || (filler.FromTimeSlots? && exists x :: x in filler.timeSlots && s == SlotFromTimeSlot(idForm, date, x, maxCapacity))
      || (filler.ClosedEvery? && IsClosedSlotOf(idForm, maxCapacity, s))
    decreases WalkMeasure(t, max)
  {
    if t != max {
      var piece := NextPiece(idForm, date, slots, filler, maxCapacity, t, max);
      if piece.Some? {
        var next := TimeOf(piece.value.endingDateTime);
        WalkProvenance(idForm, date, slots, filler, maxCapacity, next, max);
        var dt := AtTime(date, t);
        if dt in slots {
          assert slots[dt] in slots.Values;
        } else if filler.FromTimeSlots? {
          var x := TimeSlotWithStartingTime(filler.timeSlots, t).value;
          assert piece.value == SlotFromTimeSlot(idForm, date, x, maxCapacity);
        }
      }
    }
  }

  /** The walk of a working day stops early exactly where neither a persisted slot nor a
      template starts: if it emits nothing at all, nothing starts at `t`. */
  lemma WalkStopsWhereNothingStarts(idForm: int, date: int, slots: map<int, Slot>, timeSlots: seq<TimeSlot>,
                                    maxCapacity: int, t: int, max: int)
    requires SlotMapOk(slots) && FillerOk(FromTimeSlots(timeSlots))
    requires 0 <= t < MinutesPerDay && 0 <= max < MinutesPerDay && t != max
    ensures Walk(idForm, date, slots, FromTimeSlots(timeSlots), maxCapacity, t, max) == [] <==>
      AtTime(date, t) !in slots && forall x :: x in timeSlots ==> x.startingTime != t
  {
  }

  /** Templates that tile an interval of the day in order: each ends where the next starts. */
  predicate Tiling(timeSlots: seq<TimeSlot>)
  {
    && timeSlots != []
    && (forall t :: t in timeSlots ==> ValidTimeSlot(t))
    && (forall i :: 0 <= i < |timeSlots| ==> ValidTimeSlot(timeSlots[i]))
    && (forall i :: 0 < i < |timeSlots| ==> timeSlots[i - 1].endingTime == timeSlots[i].startingTime)
  }

  /** One synthesised slot per template, in order. */
  function SlotsFromTimeSlots(idForm: int, date: int, timeSlots: seq<TimeSlot>, maxCapacity: int): (r: seq<Slot>)
    ensures |r| == |timeSlots|
    ensures forall i :: 0 <= i < |timeSlots| ==> r[i] == SlotFromTimeSlot(idForm, date, timeSlots[i], maxCapacity)
  {
    if timeSlots == [] then []
    else [SlotFromTimeSlot(idForm, date, timeSlots[0], maxCapacity)] + SlotsFromTimeSlots(idForm, date, timeSlots[1..], maxCapacity)
  }

  /** The templates of a tiling start strictly later one after another. */
  lemma {:induction false} TilingStartsIncrease(timeSlots: seq<TimeSlot>, i: int, j: int)
    requires Tiling(timeSlots)
    requires 0 <= i < j < |timeSlots|
    ensures timeSlots[i].endingTime <= timeSlots[j].startingTime
    decreases j - i
  {
    assert timeSlots[j - 1] in timeSlots;
    if i < j - 1 {
      TilingStartsIncrease(timeSlots, i, j - 1);
    }
  }

  /** On a day without persisted slots, the walk over tiling templates from the first
      start to the last end emits exactly one synthesised slot per template. */
  lemma {:induction false} WalkOverTilingTemplates(idForm: int, date: int, slots: map<int, Slot>,
                                                   timeSlots: seq<TimeSlot>, maxCapacity: int, k: int)
    requires SlotMapOk(slots) && Tiling(timeSlots)
    requires forall dt :: dt in slots ==> DateOf(dt) != date
    requires 0 <= k < |timeSlots|
    ensures Walk(idForm, date, slots, FromTimeSlots(timeSlots), maxCapacity,
                 timeSlots[k].startingTime, timeSlots[|timeSlots| - 1].endingTime)
            == SlotsFromTimeSlots(idForm, date, timeSlots[k..], maxCapacity)
    decreases |timeSlots| - k
  {
    var last := |timeSlots| - 1;
    var max := timeSlots[last].endingTime;
    var t := timeSlots[k].startingTime;
    var filler := FromTimeSlots(timeSlots);
    assert ValidTimeSlot(timeSlots[k]) && ValidTimeSlot(timeSlots[last]);
    assert t != max by {
      if k < last {
        TilingStartsIncrease(timeSlots, k, last);
      }
    }
    assert AtTime(date, t) !in slots by {
      AtTimeParts(date, t);
    }
    assert TimeSlotWithStartingTime(timeSlots, t) == Some(timeSlots[k]) by {
      forall i | 0 <= i < k ensures timeSlots[i].startingTime != t {
        TilingStartsIncrease(timeSlots, i, k);
        assert ValidTimeSlot(timeSlots[i]);
      }
      TimeSlotWithStartingTimeIsFirst(timeSlots, t, k);
    }
    var piece := SlotFromTimeSlot(idForm, date, timeSlots[k], maxCapacity);
    assert NextPiece(idForm, date, slots, filler, maxCapacity, t, max) == Some(piece);
    assert TimeOf(piece.endingDateTime) == timeSlots[k].endingTime by {
      AtTimeParts(date, timeSlots[k].endingTime);
    }
    WalkUnfold(idForm, date, slots, filler, maxCapacity, t, max);
    var rest := Walk(idForm, date, slots, filler, maxCapacity, timeSlots[k].endingTime, max);
    assert Walk(idForm, date, slots, filler, maxCapacity, t, max) == [piece] + rest;
    if k < last {
      assert timeSlots[k].endingTime == timeSlots[k + 1].startingTime;
      WalkOverTilingTemplates(idForm, date, slots, timeSlots, maxCapacity, k + 1);
      assert rest == SlotsFromTimeSlots(idForm, date, timeSlots[k + 1..], maxCapacity);
    } else {
      assert rest == [] == SlotsFromTimeSlots(idForm, date, timeSlots[k + 1..], maxCapacity);
    }
    SlotsFromTimeSlotsUnfold(idForm, date, timeSlots, maxCapacity, k);
  }

  /** The slots of the templates from `k` on: the one of template `k`, then the rest. */
  lemma SlotsFromTimeSlotsUnfold(idForm: int, date: int, timeSlots: seq<TimeSlot>, maxCapacity: int, k: int)
    requires 0 <= k < |timeSlots|
    ensures SlotsFromTimeSlots(idForm, date, timeSlots[k..], maxCapacity)
            == [SlotFromTimeSlot(idForm, date, timeSlots[k], maxCapacity)]
               + SlotsFromTimeSlots(idForm, date, timeSlots[k + 1..], maxCapacity)
  {
    assert timeSlots[k..][1..] == timeSlots[k + 1..];
  }

  /** One step of the walk: the piece at `t`, then the walk from where it ends. */
  lemma WalkUnfold(idForm: int, date: int, slots: map<int, Slot>, filler: Filler, maxCapacity: int,
                   t: int, max: int)
    requires SlotMapOk(slots) && FillerOk(filler)
    requires 0 <= t < MinutesPerDay && 0 <= max < MinutesPerDay && t != max
    requires NextPiece(idForm, date, slots, filler, maxCapacity, t, max).Some?
    ensures var p := NextPiece(idForm, date, slots, filler, maxCapacity, t, max).value;
      Walk(idForm, date, slots, filler, maxCapacity, t, max)
      == [p] + Walk(idForm, date, slots, filler, maxCapacity, TimeOf(p.endingDateTime), max)
  {
  }

  /** The template lookup returns the first template with the given start. */
  lemma {:induction false} TimeSlotWithStartingTimeIsFirst(timeSlots: seq<TimeSlot>, t: int, k: int)
    requires 0 <= k < |timeSlots| && timeSlots[k].startingTime == t
    requires forall i :: 0 <= i < k ==> timeSlots[i].startingTime != t
    ensures TimeSlotWithStartingTime(timeSlots, t) == Some(timeSlots[k])
  {
    if k > 0 {
      assert timeSlots[0].startingTime != t;
      TimeSlotWithStartingTimeIsFirst(timeSlots[1..], t, k - 1);
    }
  }

  /** The closed walk never stops early: started anywhere but at the day's end, it emits at
      least one slot and its last slot ends exactly at the day's end. */
  lemma {:induction false} ClosedWalkEndsAtMax(idForm: int, date: int, slots: map<int, Slot>, duration: int,
                                               maxCapacity: int, t: int, max: int)
    requires SlotMapOk(slots) && duration > 0
    requires 0 <= t < MinutesPerDay && 0 <= max < MinutesPerDay && t != max
    ensures var r := Walk(idForm, date, slots, ClosedEvery(duration), maxCapacity, t, max);
      r != [] && r[|r| - 1].endingDateTime == AtTime(date, max)
    decreases WalkMeasure(t, max)
  {
    var piece := NextPiece(idForm, date, slots, ClosedEvery(duration), maxCapacity, t, max);
    var next := TimeOf(piece.value.endingDateTime);
    if next != max {
      ClosedWalkEndsAtMax(idForm, date, slots, duration, maxCapacity, next, max);
    }
  }

  /** The closed walk as the source writes it, with the wrapping step; `fuel` bounds the
      number of iterations, None meaning that the loop has not ended within it. */
  function ClosedWalkAsWritten(idForm: int, date: int, slots: map<int, Slot>, duration: int, maxCapacity: int,
                               t: int, max: int, fuel: nat): (r: Option<seq<Slot>>)
    requires 0 <= max
    ensures r.Some? && t != max ==> r.value != []
    decreases fuel
  {
    if t == max then Some([])
    else if fuel == 0 then None
    else
      var dt := AtTime(date, t);
      if dt in slots then
        var rest := ClosedWalkAsWritten(idForm, date, slots, duration, maxCapacity,
                                        TimeOf(slots[dt].endingDateTime), max, fuel - 1);
        if rest.Some? then Some([slots[dt]] + rest.value) else None
      else
        var next := ClosedStepAsWritten(t, duration, max);
        var rest := ClosedWalkAsWritten(idForm, date, slots, duration, maxCapacity, next, max, fuel - 1);
        if rest.Some? then Some([ClosedSlot(idForm, dt, AtTime(date, next), maxCapacity)] + rest.value) else None
  }

  /** A week whose only working day is Monday, with templates 08:00-08:20 and 08:20-23:50. */
  function ExampleWeek(): WeekDefinition
  {
    WeekDefinition(0, [WorkingDay(1, [TimeSlot(480, 500, true, 0), TimeSlot(500, 1430, true, 0)])])
  }

  /** On a non-working day of the example week the closed walk starts at 08:00, steps by
      20 minutes and must stop at 23:50. */
  lemma ExampleWeekFigures()
    ensures ValidWeekDefinition(ExampleWeek())
    ensures MinStartingTimeOfWorkingDays(ExampleWeek().workingDays) == Some(480)
    ensures MaxEndingTimeOfWorkingDays(ExampleWeek().workingDays) == Some(1430)
    ensures MinDurationOfWorkingDays(ExampleWeek().workingDays) == 20
  {
    var all := AllTimeSlots(ExampleWeek().workingDays);
    assert all == [TimeSlot(480, 500, true, 0), TimeSlot(500, 1430, true, 0)];
  }

  /** From any multiple of 20 minutes up to 23:40, the as-written closed walk of the example
      week with no persisted slot never reaches 23:50: 23:40 plus 20 minutes wraps to 00:00,
      which is not after 23:50, so the loop runs forever. */
  lemma {:induction false} ClosedWalkAsWrittenNeverEnds(idForm: int, date: int, maxCapacity: int, t: int, fuel: nat)
    requires 0 <= t <= 1420 && t % 20 == 0
    ensures ClosedWalkAsWritten(idForm, date, map[], 20, maxCapacity, t, 1430, fuel).None?
    decreases fuel
  {
    if fuel > 0 {
      var next := ClosedStepAsWritten(t, 20, 1430);
      if t == 1420 {
        assert next == 0;
      } else {
        assert next == t + 20;
      }
      ClosedWalkAsWrittenNeverEnds(idForm, date, maxCapacity, next, fuel - 1);
    }
  }

  /** The same day with the corrected step: from 08:00 the walk ends, its last slot ending at 23:50. */
  lemma ClosedWalkOfExampleEnds(idForm: int, date: int, maxCapacity: int)
    ensures var r := Walk(idForm, date, map[], ClosedEvery(20), maxCapacity, 480, 1430);
      r != [] && r[|r| - 1].endingDateTime == AtTime(date, 1430)
    ensures forall fuel: nat :: ClosedWalkAsWritten(idForm, date, map[], 20, maxCapacity, 480, 1430, fuel).None?
  {
    ClosedWalkEndsAtMax(idForm, date, map[], 20, maxCapacity, 480, 1430);
    forall fuel: nat ensures ClosedWalkAsWritten(idForm, date, map[], 20, maxCapacity, 480, 1430, fuel).None? {
      ClosedWalkAsWrittenNeverEnds(idForm, date, maxCapacity, 480, fuel);
    }
  }

  /** The corrected closed walk is the source's walk whenever no step crosses midnight:
      when the day's end plus the duration stays within the day, and so does every time
      the walk can resume from (its start and the end of every persisted slot), the
      as-written loop ends, with enough iterations, on exactly the corrected walk's slots. */
  lemma {:induction false} ClosedWalkAgreesBeforeMidnight(idForm: int, date: int, slots: map<int, Slot>,
                                                          duration: int, maxCapacity: int, t: int, max: int,
                                                          fuel: nat)
    requires SlotMapOk(slots) && duration > 0
    requires 0 <= t < MinutesPerDay && 0 <= max < MinutesPerDay
    requires max + duration <= MinutesPerDay && t + duration < MinutesPerDay
    requires forall k :: k in slots ==> TimeOf(slots[k].endingDateTime) + duration < MinutesPerDay
    requires fuel >= WalkMeasure(t, max)
    ensures ClosedWalkAsWritten(idForm, date, slots, duration, maxCapacity, t, max, fuel)
            == Some(Walk(idForm, date, slots, ClosedEvery(duration), maxCapacity, t, max))
    decreases WalkMeasure(t, max)
  {
    if t != max {
      var dt := AtTime(date, t);
      var piece := NextPiece(idForm, date, slots, ClosedEvery(duration), maxCapacity, t, max);
      var next := TimeOf(piece.value.endingDateTime);
      if dt !in slots {
        assert ClosedStep(t, duration, max) == ClosedStepAsWritten(t, duration, max);
        AtTimeParts(date, ClosedStep(t, duration, max));
        assert next == ClosedStep(t, duration, max);
      }
      assert next + duration < MinutesPerDay || next == max;
      if next != max {
        ClosedWalkAgreesBeforeMidnight(idForm, date, slots, duration, maxCapacity, next, max, fuel - 1);
      } else {
        assert ClosedWalkAsWritten(idForm, date, slots, duration, maxCapacity, next, max, fuel - 1) == Some([]);
      }
    }
  }

  /** The time bounds of a working day of a well-formed week lie inside the day. */
  lemma WorkingDayBounds(week: WeekDefinition, workingDay: WorkingDay)
    requires ValidWeekDefinition(week) && workingDay in week.workingDays
    ensures workingDay.timeSlots != [] && FillerOk(FromTimeSlots(workingDay.timeSlots))
    ensures 0 <= MinStartingTime(workingDay.timeSlots) < MinutesPerDay
    ensures 0 <= MaxEndingTime(workingDay.timeSlots) < MinutesPerDay
  {
  }

  /** The bounds and the shortest duration over all working days of a well-formed week. */
  lemma WeekBounds(week: WeekDefinition)
    requires ValidWeekDefinition(week)
    requires MinStartingTimeOfWorkingDays(week.workingDays).Some?
    ensures MaxEndingTimeOfWorkingDays(week.workingDays).Some?
    ensures 0 <= MinStartingTimeOfWorkingDays(week.workingDays).value < MinutesPerDay
    ensures 0 <= MaxEndingTimeOfWorkingDays(week.workingDays).value < MinutesPerDay
    ensures MinDurationOfWorkingDays(week.workingDays) > 0
  {
    var all := AllTimeSlots(week.workingDays);
    AllTimeSlotsValid(week);
    MinDurationPositive(all);
  }

  /** The slots buildListSlot emits for one date, given the closing days and the slot map. */
  function DaySlots(idForm: int, weeks: seq<WeekDefinition>, rules: seq<ReservationRule>,
                    closingDays: seq<int>, slots: map<int, Slot>, date: int): seq<Slot>
    requires ValidWeekDefinitions(weeks) && SlotMapOk(slots)
  {
    var week := EffectiveWeekDefinition(weeks, date);
    var rule := EffectiveReservationRule(rules, date);
    var maxCapacity := if rule.Some? then rule.value.maxCapacityPerSlot else 0;
    var workingDay := if week.Some? then WorkingDayOfDayOfWeek(week.value.workingDays, DayOfWeek(date)) else None;
    if workingDay.Some? then
      WorkingDayBounds(week.value, workingDay.value);
      var timeSlots := workingDay.value.timeSlots;
      var minTime := MinStartingTime(timeSlots);
      var maxTime := MaxEndingTime(timeSlots);
      if date in closingDays then
        [ClosedSlot(idForm, AtTime(date, minTime), AtTime(date, maxTime), maxCapacity)]
      else
        Walk(idForm, date, slots, FromTimeSlots(timeSlots), maxCapacity, minTime, maxTime)
    else if rule.Some? && week.Some? then
      var workingDays := week.value.workingDays;
      var minTime := MinStartingTimeOfWorkingDays(workingDays);
      var maxTime := MaxEndingTimeOfWorkingDays(workingDays);
      if minTime.Some? && maxTime.Some? then
        WeekBounds(week.value);
        Walk(idForm, date, slots, ClosedEvery(MinDurationOfWorkingDays(workingDays)), maxCapacity,
             minTime.value, maxTime.value)
      else []
    else []
  }

  /** On a closing date that falls on a working day, buildListSlot emits exactly one slot
      for the date: closed, not specific, nothing taken, from the working day's first start
      to its last end, with the rule's capacity (0 without a rule) on all three counters. */
  lemma ClosingDayOnAWorkingDay(idForm: int, weeks: seq<WeekDefinition>, rules: seq<ReservationRule>,
                                closingDays: seq<int>, slots: map<int, Slot>, date: int,
                                week: WeekDefinition, workingDay: WorkingDay)
    requires ValidWeekDefinitions(weeks) && SlotMapOk(slots)
    requires date in closingDays
    requires EffectiveWeekDefinition(weeks, date) == Some(week)
    requires WorkingDayOfDayOfWeek(week.workingDays, DayOfWeek(date)) == Some(workingDay)
    ensures workingDay.timeSlots != []
    ensures var r := DaySlots(idForm, weeks, rules, closingDays, slots, date);
      var rule := EffectiveReservationRule(rules, date);
      var capacity := if rule.Some? then rule.value.maxCapacityPerSlot else 0;
      && |r| == 1 && r[0].id == 0 && r[0].idForm == idForm
      && r[0].startingDateTime == AtTime(date, MinStartingTime(workingDay.timeSlots))
      && r[0].endingDateTime == AtTime(date, MaxEndingTime(workingDay.timeSlots))
      && !r[0].isOpen && !r[0].isSpecific && r[0].nbPlacesTaken == 0
      && r[0].maxCapacity == capacity && r[0].nbRemainingPlaces == capacity
      && r[0].nbPotentialRemainingPlaces == capacity
  {
    WorkingDayBounds(week, workingDay);
  }

  /** The slots of the dates from `from` to `to`, both included, day after day. */
  function SlotsOfDays(idForm: int, weeks: seq<WeekDefinition>, rules: seq<ReservationRule>,
                       closingDays: seq<int>, slots: map<int, Slot>, from: int, to: int): seq<Slot>
    requires ValidWeekDefinitions(weeks) && SlotMapOk(slots)
    decreases if to < from then 0 else to - from + 1
  {
    if to < from then []
    else SlotsOfDays(idForm, weeks, rules, closingDays, slots, from, to - 1)
         + DaySlots(idForm, weeks, rules, closingDays, slots, to)
  }

  /** The first date from which the form exists: the planning period's start, moved up to
      the earliest reservation rule when there is one after it. */
  function StartingDateToUse(rules: seq<ReservationRule>, startingDate: int): (r: int)
    ensures startingDate <= r
    ensures r != startingDate ==> FirstDate(RuleDates(rules)) == Some(r)
  {
    var first := FirstDate(RuleDates(rules));
    if first.Some? && startingDate < first.value then first.value else startingDate
  }

  /** findListDateOfClosingDayByIdFormAndDateRange over the form's closing dates. */
  function ClosingDaysInRange(closingDays: seq<int>, from: int, to: int): (r: seq<int>)
    ensures forall d :: d in r <==> d in closingDays && from <= d <= to
  {
    if closingDays == [] then []
    else (if from <= closingDays[0] <= to then [closingDays[0]] else []) + ClosingDaysInRange(closingDays[1..], from, to)
  }

  /** The planning buildListSlot returns, from the persisted rows, the form's rules and its
      closing dates: chronological, every slot on a date of the period with its derived
      fields computed. */
  function Planning(rows: seq<Slot>, idForm: int, weeks: seq<WeekDefinition>, rules: seq<ReservationRule>,
                    closingDays: seq<int>, startingDate: int, endingDate: int): (r: seq<Slot>)
    requires ValidWeekDefinitions(weeks) && FormRowsWithinOneDay(rows, idForm)
    ensures Chronological(r)
    ensures forall s {:trigger s in r} :: s in r ==> startingDate <= s.date <= endingDate && DerivedFieldsAgree(s)
  {
    var from := StartingDateToUse(rules, startingDate);
    var slots := MapByStart(FindSlotsByIdFormAndDateRange(rows, idForm, AtTime(from, 0), AtTime(endingDate, MinutesPerDay - 1)));
    MapOfStoreOk(rows, idForm, AtTime(from, 0), AtTime(endingDate, MinutesPerDay - 1));
    var closing := ClosingDaysInRange(closingDays, from, endingDate);
    SlotsOfDaysOrdered(idForm, weeks, rules, closing, slots, startingDate, endingDate);
    SlotsOfDays(idForm, weeks, rules, closing, slots, startingDate, endingDate)
  }

  /** The walk of a working day (the first inner loop of buildListSlot): persisted slots
      verbatim, templates for the gaps, until the day's end or a time where nothing starts. */
  method WalkWorkingDay(mapSlot: map<int, Slot>, idForm: int, dateTemp: int, timeSlots: seq<TimeSlot>,
                        nMaxCapacity: int, minTimeForThisDay: int, maxTimeForThisDay: int)
    returns (daySlots: seq<Slot>)
    requires SlotMapOk(mapSlot) && FillerOk(FromTimeSlots(timeSlots))
    requires 0 <= minTimeForThisDay < MinutesPerDay && 0 <= maxTimeForThisDay < MinutesPerDay
    ensures daySlots == Walk(idForm, dateTemp, mapSlot, FromTimeSlots(timeSlots), nMaxCapacity,
                             minTimeForThisDay, maxTimeForThisDay)
  {
    var filler := FromTimeSlots(timeSlots);
    daySlots := [];
    var timeTemp := minTimeForThisDay;
    while timeTemp != maxTimeForThisDay
      invariant 0 <= timeTemp < MinutesPerDay
      invariant Walk(idForm, dateTemp, mapSlot, filler, nMaxCapacity, minTimeForThisDay, maxTimeForThisDay)
                == daySlots + Walk(idForm, dateTemp, mapSlot, filler, nMaxCapacity, timeTemp, maxTimeForThisDay)
      decreases WalkMeasure(timeTemp, maxTimeForThisDay)
    {
      var slotToAdd := WorkingDayPiece(mapSlot, idForm, dateTemp, timeSlots, nMaxCapacity, timeTemp, maxTimeForThisDay);
      if slotToAdd.None? {
        break;
      }
      WalkUnfold(idForm, dateTemp, mapSlot, filler, nMaxCapacity, timeTemp, maxTimeForThisDay);
      timeTemp := TimeOf(slotToAdd.value.endingDateTime);
      daySlots := daySlots + [slotToAdd.value];
    }
  }

  /** The body of the working-day loop: the persisted slot starting at `timeTemp`, else
      the slot of the first template starting then, else none (the loop stops). */
  method WorkingDayPiece(mapSlot: map<int, Slot>, idForm: int, dateTemp: int, timeSlots: seq<TimeSlot>,
                         nMaxCapacity: int, timeTemp: int, maxTimeForThisDay: int)
    returns (slotToAdd: Option<Slot>)
    requires SlotMapOk(mapSlot) && FillerOk(FromTimeSlots(timeSlots))
    requires 0 <= timeTemp < MinutesPerDay && 0 <= maxTimeForThisDay < MinutesPerDay
    ensures slotToAdd == NextPiece(idForm, dateTemp, mapSlot, FromTimeSlots(timeSlots), nMaxCapacity,
                                   timeTemp, maxTimeForThisDay)
  {
    var dateTimeTemp := AtTime(dateTemp, timeTemp);
    if dateTimeTemp in mapSlot {
      slotToAdd := Some(mapSlot[dateTimeTemp]);
    } else {
      var timeSlot := TimeSlotWithStartingTime(timeSlots, timeTemp);
      if timeSlot.None? {
        slotToAdd := None;
      } else {
        slotToAdd := Some(SlotFromTimeSlot(idForm, dateTemp, timeSlot.value, nMaxCapacity));
      }
    }
  }

  /** The walk of a non-working day (the second inner loop of buildListSlot): persisted
      slots verbatim, closed slots of `nDuration` minutes for the gaps, the last one clamped
      to the day's end. */
  method WalkNonWorkingDay(mapSlot: map<int, Slot>, idForm: int, dateTemp: int, nDuration: int,
                           nMaxCapacity: int, minTimeForThisDay: int, maxTimeForThisDay: int)
    returns (daySlots: seq<Slot>)
    requires SlotMapOk(mapSlot) && nDuration > 0
    requires 0 <= minTimeForThisDay < MinutesPerDay && 0 <= maxTimeForThisDay < MinutesPerDay
    ensures daySlots == Walk(idForm, dateTemp, mapSlot, ClosedEvery(nDuration), nMaxCapacity,
                             minTimeForThisDay, maxTimeForThisDay)
  {
    var filler := ClosedEvery(nDuration);
    daySlots := [];
    var timeTemp := minTimeForThisDay;
    while timeTemp != maxTimeForThisDay
      invariant 0 <= timeTemp < MinutesPerDay
      invariant Walk(idForm, dateTemp, mapSlot, filler, nMaxCapacity, minTimeForThisDay, maxTimeForThisDay)
                == daySlots + Walk(idForm, dateTemp, mapSlot, filler, nMaxCapacity, timeTemp, maxTimeForThisDay)
      decreases WalkMeasure(timeTemp, maxTimeForThisDay)
    {
      var slotToAdd := NonWorkingDayPiece(mapSlot, idForm, dateTemp, nDuration, nMaxCapacity, timeTemp, maxTimeForThisDay);
      WalkUnfold(idForm, dateTemp, mapSlot, filler, nMaxCapacity, timeTemp, maxTimeForThisDay);
      timeTemp := TimeOf(slotToAdd.endingDateTime);
      daySlots := daySlots + [slotToAdd];
    }
  }

  /** The body of the non-working-day loop: the persisted slot starting at `timeTemp`,
      else a closed slot up to the next step. */
  method NonWorkingDayPiece(mapSlot: map<int, Slot>, idForm: int, dateTemp: int, nDuration: int,
                            nMaxCapacity: int, timeTemp: int, maxTimeForThisDay: int)
    returns (slotToAdd: Slot)
    requires SlotMapOk(mapSlot) && nDuration > 0
    requires 0 <= timeTemp < MinutesPerDay && 0 <= maxTimeForThisDay < MinutesPerDay
    ensures NextPiece(idForm, dateTemp, mapSlot, ClosedEvery(nDuration), nMaxCapacity, timeTemp, maxTimeForThisDay)
            == Some(slotToAdd)
  {
    var dateTimeTemp := AtTime(dateTemp, timeTemp);
    if dateTimeTemp in mapSlot {
      slotToAdd := mapSlot[dateTimeTemp];
    } else {
      var next := ClosedStep(timeTemp, nDuration, maxTimeForThisDay);
      slotToAdd := ClosedSlot(idForm, dateTimeTemp, AtTime(dateTemp, next), nMaxCapacity);
    }
  }

  /** The slots buildListSlot emits for `dateTemp`. */
  method BuildDaySlots(mapSlot: map<int, Slot>, idForm: int, weeks: seq<WeekDefinition>, rules: seq<ReservationRule>,
                       listDateOfClosingDay: seq<int>, dateTemp: int) returns (daySlots: seq<Slot>)
    requires ValidWeekDefinitions(weeks) && SlotMapOk(mapSlot)
    ensures daySlots == DaySlots(idForm, weeks, rules, listDateOfClosingDay, mapSlot, dateTemp)
    ensures Chronological(daySlots)
    ensures forall s {:trigger s in daySlots} :: s in daySlots ==> s.date == dateTemp && DerivedFieldsAgree(s)
  {
    DaySlotsOnTheirDate(idForm, weeks, rules, listDateOfClosingDay, mapSlot, dateTemp);
    daySlots := [];
    var weekDefinitionToApply := EffectiveWeekDefinition(weeks, dateTemp);
    var reservationRuleToApply := EffectiveReservationRule(rules, dateTemp);
    var nMaxCapacity := 0;
    if reservationRuleToApply.Some? {
      nMaxCapacity := reservationRuleToApply.value.maxCapacityPerSlot;
    }
    var workingDay: Option<WorkingDay> := None;
    if weekDefinitionToApply.Some? {
      workingDay := WorkingDayOfDayOfWeek(weekDefinitionToApply.value.workingDays, DayOfWeek(dateTemp));
    }
    if workingDay.Some? {
      WorkingDayBounds(weekDefinitionToApply.value, workingDay.value);
      var timeSlots := workingDay.value.timeSlots;
      var minTimeForThisDay := MinStartingTime(timeSlots);
      var maxTimeForThisDay := MaxEndingTime(timeSlots);
      if dateTemp in listDateOfClosingDay {
        daySlots := [ClosedSlot(idForm, AtTime(dateTemp, minTimeForThisDay), AtTime(dateTemp, maxTimeForThisDay), nMaxCapacity)];
      } else {
        daySlots := WalkWorkingDay(mapSlot, idForm, dateTemp, timeSlots, nMaxCapacity, minTimeForThisDay, maxTimeForThisDay);
      }
    } else if reservationRuleToApply.Some? && weekDefinitionToApply.Some? {
      var workingDays := weekDefinitionToApply.value.workingDays;
      var minTime := MinStartingTimeOfWorkingDays(workingDays);
      var maxTime := MaxEndingTimeOfWorkingDays(workingDays);
      var nDuration := MinDurationOfWorkingDays(workingDays);
      if minTime.Some? && maxTime.Some? {
        WeekBounds(weekDefinitionToApply.value);
        daySlots := WalkNonWorkingDay(mapSlot, idForm, dateTemp, nDuration, nMaxCapacity, minTime.value, maxTime.value);
      }
    }
  }

  /** One more date appends the slots of that date. */
  lemma SlotsOfDaysSnoc(idForm: int, weeks: seq<WeekDefinition>, rules: seq<ReservationRule>,
                        closingDays: seq<int>, slots: map<int, Slot>, from: int, to: int)
    requires ValidWeekDefinitions(weeks) && SlotMapOk(slots) && from <= to
    ensures SlotsOfDays(idForm, weeks, rules, closingDays, slots, from, to)
            == SlotsOfDays(idForm, weeks, rules, closingDays, slots, from, to - 1)
               + DaySlots(idForm, weeks, rules, closingDays, slots, to)
  {
  }

  /** One turn of the outer loop of buildListSlot: appends the slots of `dateTemp` to
      those of the dates before it and moves on to the next date. */
  method AddSlotsOfDay(listSlot: seq<Slot>, mapSlot: map<int, Slot>, idForm: int, weeks: seq<WeekDefinition>,
                       rules: seq<ReservationRule>, listDateOfClosingDay: seq<int>, startingDate: int, dateTemp: int)
    returns (r: seq<Slot>, nextDate: int)
    requires ValidWeekDefinitions(weeks) && SlotMapOk(mapSlot) && startingDate <= dateTemp
    requires listSlot == SlotsOfDays(idForm, weeks, rules, listDateOfClosingDay, mapSlot, startingDate, dateTemp - 1)
    ensures nextDate == dateTemp + 1
    ensures r == SlotsOfDays(idForm, weeks, rules, listDateOfClosingDay, mapSlot, startingDate, nextDate - 1)
  {
    var daySlots := BuildDaySlots(mapSlot, idForm, weeks, rules, listDateOfClosingDay, dateTemp);
    SlotsOfDaysSnoc(idForm, weeks, rules, listDateOfClosingDay, mapSlot, startingDate, dateTemp);
    r := listSlot + daySlots;
    nextDate := dateTemp + 1;
  }

  /** The slots of consecutive dates are chronological and each lies on one of those dates. */
  lemma {:induction false} SlotsOfDaysOrdered(idForm: int, weeks: seq<WeekDefinition>, rules: seq<ReservationRule>,
                                              closingDays: seq<int>, slots: map<int, Slot>, from: int, to: int)
    requires ValidWeekDefinitions(weeks) && SlotMapOk(slots)
    decreases if to < from then 0 else to - from + 1
    ensures Chronological(SlotsOfDays(idForm, weeks, rules, closingDays, slots, from, to))
    ensures forall s {:trigger s in SlotsOfDays(idForm, weeks, rules, closingDays, slots, from, to)} ::
              s in SlotsOfDays(idForm, weeks, rules, closingDays, slots, from, to) ==>
                from <= s.date <= to && DerivedFieldsAgree(s)
  {
    if from <= to {
      var before := SlotsOfDays(idForm, weeks, rules, closingDays, slots, from, to - 1);
      var last := DaySlots(idForm, weeks, rules, closingDays, slots, to);
      SlotsOfDaysOrdered(idForm, weeks, rules, closingDays, slots, from, to - 1);
      DaySlotsOnTheirDate(idForm, weeks, rules, closingDays, slots, to);
      AppendDay(before, last, from, to);
    }
  }

  /** Conversely, no slot of a date of the run is left out: every slot built for a date
      from `from` to `to` is in the slots of the run. */
  lemma {:induction false} SlotsOfDaysComplete(idForm: int, weeks: seq<WeekDefinition>, rules: seq<ReservationRule>,
                                               closingDays: seq<int>, slots: map<int, Slot>, from: int, to: int)
    requires ValidWeekDefinitions(weeks) && SlotMapOk(slots)
    decreases if to < from then 0 else to - from + 1
    ensures forall d, s :: from <= d <= to && s in DaySlots(idForm, weeks, rules, closingDays, slots, d) ==>
              s in SlotsOfDays(idForm, weeks, rules, closingDays, slots, from, to)
  {
    if from <= to {
      SlotsOfDaysComplete(idForm, weeks, rules, closingDays, slots, from, to - 1);
      var before := SlotsOfDays(idForm, weeks, rules, closingDays, slots, from, to - 1);
      var last := DaySlots(idForm, weeks, rules, closingDays, slots, to);
      assert SlotsOfDays(idForm, weeks, rules, closingDays, slots, from, to) == before + last;
      forall d, s | from <= d <= to && s in DaySlots(idForm, weeks, rules, closingDays, slots, d)
        ensures s in before + last
      {
        if d == to {
          assert s in last;
        } else {
          assert s in before;
        }
      }
    }
  }

  /** The outer loop of buildListSlot: the slots of every date from `startingDate` to `endingDate`. */
  method BuildSlotsOfDays(mapSlot: map<int, Slot>, idForm: int, weeks: seq<WeekDefinition>, rules: seq<ReservationRule>,
                          listDateOfClosingDay: seq<int>, startingDate: int, endingDate: int) returns (listSlot: seq<Slot>)
    requires ValidWeekDefinitions(weeks) && SlotMapOk(mapSlot)
    ensures listSlot == SlotsOfDays(idForm, weeks, rules, listDateOfClosingDay, mapSlot, startingDate, endingDate)
  {
    listSlot := [];
    var dateTemp := startingDate;
    while dateTemp <= endingDate
      invariant dateTemp == startingDate || startingDate < dateTemp <= endingDate + 1
      invariant listSlot == SlotsOfDays(idForm, weeks, rules, listDateOfClosingDay, mapSlot, startingDate, dateTemp - 1)
      decreases endingDate - dateTemp
    {
      listSlot, dateTemp := AddSlotsOfDay(listSlot, mapSlot, idForm, weeks, rules, listDateOfClosingDay, startingDate, dateTemp);
    }
  }

  /** buildListSlot: every slot of the form from `startingDate` to `endingDate`, persisted
      or built from the rules. The reservation rules and the closing dates of the form are
      parameters; the source reads them from their services. */
  method BuildListSlot(store: SlotStore, idForm: int, weeks: seq<WeekDefinition>, rules: seq<ReservationRule>,
                       closingDays: seq<int>, startingDate: int, endingDate: int) returns (listSlot: seq<Slot>)
    requires ValidWeekDefinitions(weeks)
    requires FormRowsWithinOneDay(store.rows, idForm)
    ensures listSlot == Planning(store.rows, idForm, weeks, rules, closingDays, startingDate, endingDate)
    ensures Chronological(listSlot)
    ensures forall s {:trigger s in listSlot} :: s in listSlot ==> startingDate <= s.date <= endingDate && DerivedFieldsAgree(s)
  {
    var startingDateToUse := startingDate;
    var firstDateOfReservationRule := FirstDate(RuleDates(rules));
    if firstDateOfReservationRule.Some? && startingDate < firstDateOfReservationRule.value {
      startingDateToUse := firstDateOfReservationRule.value;
    }
    var listDateOfClosingDay := ClosingDaysInRange(closingDays, startingDateToUse, endingDate);
    var mapSlot := BuildMapSlotsByIdFormAndDateRangeWithDateForKey(store, idForm, AtTime(startingDateToUse, 0),
                                                                  AtTime(endingDate, MinutesPerDay - 1));
    MapOfStoreOk(store.rows, idForm, AtTime(startingDateToUse, 0), AtTime(endingDate, MinutesPerDay - 1));
    listSlot := BuildSlotsOfDays(mapSlot, idForm, weeks, rules, listDateOfClosingDay, startingDate, endingDate);
    assert startingDateToUse == StartingDateToUse(rules, startingDate);
  }

  /** A date-time on an earlier date is earlier. */
  lemma EarlierDate(x: int, y: int)
    requires DateOf(x) < DateOf(y)
    ensures x < y
  {
    DateTimeParts(x);
    DateTimeParts(y);
    assert x < AtTime(DateOf(x) + 1, 0) <= AtTime(DateOf(y), 0) <= y;
  }

  /** The slots of the dates from `from` to the day before `date`, followed by those of
      `date`, are chronological and lie on the dates from `from` to `date`. */
  lemma AppendDay(a: seq<Slot>, b: seq<Slot>, from: int, date: int)
    requires from <= date
    requires Chronological(a) && Chronological(b)
    requires forall s {:trigger s in a} :: s in a ==> from <= s.date < date && DerivedFieldsAgree(s)
    requires forall s {:trigger s in b} :: s in b ==> s.date == date && DerivedFieldsAgree(s)
    ensures Chronological(a + b)
    ensures forall s {:trigger s in a + b} :: s in a + b ==> from <= s.date <= date && DerivedFieldsAgree(s)
  {
    ChronologicalAppend(a, b, date);
    forall s | s in a + b ensures from <= s.date <= date && DerivedFieldsAgree(s) {
      assert s in a || s in b;
    }
  }

  /** A chronological list of slots on dates before `date`, followed by a chronological
      list of slots on `date`, is chronological. */
  lemma ChronologicalAppend(a: seq<Slot>, b: seq<Slot>, date: int)
    requires Chronological(a) && Chronological(b)
    requires forall s {:trigger s in a} :: s in a ==> s.date < date && DerivedFieldsAgree(s)
    requires forall s {:trigger s in b} :: s in b ==> s.date == date && DerivedFieldsAgree(s)
    ensures Chronological(a + b)
  {
    var r := a + b;
    forall i, j | 0 <= i < j < |r| ensures r[i].startingDateTime < r[j].startingDateTime {
      if j < |a| {
        assert r[i] == a[i] && r[j] == a[j];
      } else if i >= |a| {
        assert r[i] == b[i - |a|] && r[j] == b[j - |a|];
      } else {
        assert r[i] == a[i] && a[i] in a && r[j] == b[j - |a|] && b[j - |a|] in b;
        EarlierDate(r[i].startingDateTime, r[j].startingDateTime);
      }
    }
  }

  /** The slots of one date all lie on that date, in chronological order. */
  lemma DaySlotsOnTheirDate(idForm: int, weeks: seq<WeekDefinition>, rules: seq<ReservationRule>,
                            closingDays: seq<int>, slots: map<int, Slot>, date: int)
    requires ValidWeekDefinitions(weeks) && SlotMapOk(slots)
    ensures Chronological(DaySlots(idForm, weeks, rules, closingDays, slots, date))
    ensures forall s {:trigger s in DaySlots(idForm, weeks, rules, closingDays, slots, date)} ::
              s in DaySlots(idForm, weeks, rules, closingDays, slots, date) ==> s.date == date && DerivedFieldsAgree(s)
  {
    var week := EffectiveWeekDefinition(weeks, date);
    var rule := EffectiveReservationRule(rules, date);
    var maxCapacity := if rule.Some? then rule.value.maxCapacityPerSlot else 0;
    var workingDay := if week.Some? then WorkingDayOfDayOfWeek(week.value.workingDays, DayOfWeek(date)) else None;
    if workingDay.Some? {
      WorkingDayBounds(week.value, workingDay.value);
      var timeSlots := workingDay.value.timeSlots;
      if date in closingDays {
        AtTimeParts(date, MinStartingTime(timeSlots));
      } else {
        WalkIsContiguous(idForm, date, slots, FromTimeSlots(timeSlots), maxCapacity,
                         MinStartingTime(timeSlots), MaxEndingTime(timeSlots));
      }
    } else if rule.Some? && week.Some? {
      var workingDays := week.value.workingDays;
      var minTime := MinStartingTimeOfWorkingDays(workingDays);
      var maxTime := MaxEndingTimeOfWorkingDays(workingDays);
      if minTime.Some? && maxTime.Some? {
        WeekBounds(week.value);
        WalkIsContiguous(idForm, date, slots, ClosedEvery(MinDurationOfWorkingDays(workingDays)), maxCapacity,
                         minTime.value, maxTime.value);
      }
    }
  }

  /** The keyed slots of a walk are persisted slots: the gap slots carry no key. */
  lemma WalkKeyedProvenance(idForm: int, date: int, slots: map<int, Slot>, filler: Filler,
                            maxCapacity: int, t: int, max: int)
    requires SlotMapOk(slots) && FillerOk(filler)
    requires 0 <= t < MinutesPerDay && 0 <= max < MinutesPerDay
    ensures forall s :: s in Walk(idForm, date, slots, filler, maxCapacity, t, max) && s.id != 0 ==> s in slots.Values
  {
    WalkProvenance(idForm, date, slots, filler, maxCapacity, t, max);
    forall s | s in Walk(idForm, date, slots, filler, maxCapacity, t, max) && s.id != 0
      ensures s in slots.Values
    {
      if filler.FromTimeSlots? {
        assert !exists x :: x in filler.timeSlots && s == SlotFromTimeSlot(idForm, date, x, maxCapacity);
      }
    }
  }

  /** Every slot of one date that has a key is a persisted slot of the map: the slots
      built from templates and the closed slots carry no key. */
  lemma DaySlotsProvenance(idForm: int, weeks: seq<WeekDefinition>, rules: seq<ReservationRule>,
                           closingDays: seq<int>, slots: map<int, Slot>, date: int)
    requires ValidWeekDefinitions(weeks) && SlotMapOk(slots)
    ensures forall s :: s in DaySlots(idForm, weeks, rules, closingDays, slots, date) && s.id != 0 ==>
              s in slots.Values
  {
    var week := EffectiveWeekDefinition(weeks, date);
    var rule := EffectiveReservationRule(rules, date);
    var maxCapacity := if rule.Some? then rule.value.maxCapacityPerSlot else 0;
    var workingDay := if week.Some? then WorkingDayOfDayOfWeek(week.value.workingDays, DayOfWeek(date)) else None;
    if workingDay.Some? {
      WorkingDayBounds(week.value, workingDay.value);
      var timeSlots := workingDay.value.timeSlots;
      var minTime := MinStartingTime(timeSlots);
      var maxTime := MaxEndingTime(timeSlots);
      if date !in closingDays {
        WalkKeyedProvenance(idForm, date, slots, FromTimeSlots(timeSlots), maxCapacity, minTime, maxTime);
      }
    } else if rule.Some? && week.Some? {
      var workingDays := week.value.workingDays;
      var minTime := MinStartingTimeOfWorkingDays(workingDays);
      var maxTime := MaxEndingTimeOfWorkingDays(workingDays);
      if minTime.Some? && maxTime.Some? {
        WeekBounds(week.value);
        WalkKeyedProvenance(idForm, date, slots, ClosedEvery(MinDurationOfWorkingDays(workingDays)), maxCapacity,
                       minTime.value, maxTime.value);
      }
    }
  }

  /** Every slot of the planning of one date that has a key comes from a stored row with
      that key and that start. */
  lemma PlanningOfOneDayProvenance(rows: seq<Slot>, idForm: int, weeks: seq<WeekDefinition>,
                                   rules: seq<ReservationRule>, closingDays: seq<int>, date: int)
    requires ValidWeekDefinitions(weeks) && FormRowsWithinOneDay(rows, idForm)
    ensures forall s :: s in Planning(rows, idForm, weeks, rules, closingDays, date, date) && s.id != 0 ==>
              exists y :: y in rows && y.id == s.id && y.startingDateTime == s.startingDateTime
  {
    var from := StartingDateToUse(rules, date);
    var found := FindSlotsByIdFormAndDateRange(rows, idForm, AtTime(from, 0), AtTime(date, MinutesPerDay - 1));
    var slots := MapByStart(found);
    MapOfStoreOk(rows, idForm, AtTime(from, 0), AtTime(date, MinutesPerDay - 1));
    var closing := ClosingDaysInRange(closingDays, from, date);
    assert Planning(rows, idForm, weeks, rules, closingDays, date, date)
           == SlotsOfDays(idForm, weeks, rules, closing, slots, date, date);
    OneDayRun(idForm, weeks, rules, closing, slots, date);
    DaySlotsProvenance(idForm, weeks, rules, closing, slots, date);
    MapValuesStored(rows, idForm, AtTime(from, 0), AtTime(date, MinutesPerDay - 1));
  }

  /** A run of one day is the slots of that day. */
  lemma OneDayRun(idForm: int, weeks: seq<WeekDefinition>, rules: seq<ReservationRule>,
                  closingDays: seq<int>, slots: map<int, Slot>, date: int)
    requires ValidWeekDefinitions(weeks) && SlotMapOk(slots)
    ensures SlotsOfDays(idForm, weeks, rules, closingDays, slots, date, date)
            == DaySlots(idForm, weeks, rules, closingDays, slots, date)
  {
    assert SlotsOfDays(idForm, weeks, rules, closingDays, slots, date, date - 1) == [];
  }

  /** The slots of the map built from the stored rows are those rows, with their key and
      their start. */
  lemma MapValuesStored(rows: seq<Slot>, idForm: int, from: int, to: int)
    ensures forall s :: s in MapByStart(FindSlotsByIdFormAndDateRange(rows, idForm, from, to)).Values ==>
              exists y :: y in rows && y.id == s.id && y.startingDateTime == s.startingDateTime
  {
    var found := FindSlotsByIdFormAndDateRange(rows, idForm, from, to);
    var slots := MapByStart(found);
    forall s | s in slots.Values
      ensures exists y :: y in rows && y.id == s.id && y.startingDateTime == s.startingDateTime
    {
      var k :| k in slots && slots[k] == s;
      assert s in found;
      var y :| y in rows && y.idForm == idForm && from <= y.startingDateTime && y.endingDateTime <= to
               && s == AddDateAndTimeToSlot(y);
    }
  }
}
