/** Capacity reconciliation of a slot (SlotService.updateRemainingPlaces) and the seat
    ledger that bookings and cancellations keep on a slot. */
module Capacity {
  import opened SlotTypes
  import opened Store

  /** `Math.max(0, x)`. */
  function Max0(x: int): (r: int)
    ensures r >= 0 && r >= x
    ensures r == x || r == 0
  {
    if x > 0 then x else 0
  }

  /** The slot after updateRemainingPlaces, given the stored version of it. Only the two
      remaining-place counters may change: a raise of the capacity by d adds d to both
      stored counters, a cut by d takes d off both, floored at 0, and an unchanged
      capacity leaves the slot as it is. */
  function Reconcile(slot: Slot, oldSlot: Slot): (r: Slot)
    ensures r.(nbRemainingPlaces := slot.nbRemainingPlaces,
               nbPotentialRemainingPlaces := slot.nbPotentialRemainingPlaces) == slot
    ensures slot.maxCapacity == oldSlot.maxCapacity ==> r == slot
    ensures slot.maxCapacity > oldSlot.maxCapacity ==>
      && r.nbRemainingPlaces - oldSlot.nbRemainingPlaces == slot.maxCapacity - oldSlot.maxCapacity
      && r.nbPotentialRemainingPlaces - oldSlot.nbPotentialRemainingPlaces == slot.maxCapacity - oldSlot.maxCapacity
    ensures slot.maxCapacity < oldSlot.maxCapacity ==>
      && r.nbRemainingPlaces == Max0(oldSlot.nbRemainingPlaces - (oldSlot.maxCapacity - slot.maxCapacity))
      && r.nbPotentialRemainingPlaces == Max0(oldSlot.nbPotentialRemainingPlaces - (oldSlot.maxCapacity - slot.maxCapacity))
  {
    var newCapacity := slot.maxCapacity;
    var oldCapacity := oldSlot.maxCapacity;
    if newCapacity == oldCapacity then slot
    else if newCapacity > oldCapacity then
      var valueToAdd := newCapacity - oldCapacity;
      slot.(nbPotentialRemainingPlaces := oldSlot.nbPotentialRemainingPlaces + valueToAdd,
            nbRemainingPlaces := oldSlot.nbRemainingPlaces + valueToAdd)
    else
      var valueToSubstract := oldCapacity - newCapacity;
      slot.(nbPotentialRemainingPlaces := Max0(oldSlot.nbPotentialRemainingPlaces - valueToSubstract),
            nbRemainingPlaces := Max0(oldSlot.nbRemainingPlaces - valueToSubstract))
  }

  /** updateRemainingPlaces: reads the stored slot with the same key and reconciles the
      counters of `slot` with it. The source dereferences the stored slot without a null
      check, hence the requires. */
  method UpdateRemainingPlaces(store: SlotStore, slot: Slot) returns (r: Slot)
    requires store.Valid()
    requires store.FindById(slot.id).Some?
    ensures r == Reconcile(slot, store.FindById(slot.id).value)
  {
    var oldSlot := store.FindById(slot.id).value;
    var nNewNbMaxCapacity := slot.maxCapacity;
    var nOldBnMaxCapacity := oldSlot.maxCapacity;
    r := slot;
    if nNewNbMaxCapacity != nOldBnMaxCapacity {
      if nNewNbMaxCapacity > nOldBnMaxCapacity {
        var nValueToAdd := nNewNbMaxCapacity - nOldBnMaxCapacity;
        r := r.(nbPotentialRemainingPlaces := oldSlot.nbPotentialRemainingPlaces + nValueToAdd);
        r := r.(nbRemainingPlaces := oldSlot.nbRemainingPlaces + nValueToAdd);
      } else {
        var nValueToSubstract := nOldBnMaxCapacity - nNewNbMaxCapacity;
        r := r.(nbPotentialRemainingPlaces := Max0(oldSlot.nbPotentialRemainingPlaces - nValueToSubstract));
        r := r.(nbRemainingPlaces := Max0(oldSlot.nbRemainingPlaces - nValueToSubstract));
      }
    }
  }

  /** When the capacity changes, counters that were not negative stay not negative. */
  lemma ReconcileNonNegative(slot: Slot, oldSlot: Slot)
    requires slot.maxCapacity != oldSlot.maxCapacity
    requires oldSlot.nbRemainingPlaces >= 0 && oldSlot.nbPotentialRemainingPlaces >= 0
    ensures Reconcile(slot, oldSlot).nbRemainingPlaces >= 0
    ensures Reconcile(slot, oldSlot).nbPotentialRemainingPlaces >= 0
  {
  }

  /** Raising the capacity and then lowering it back restores both counters; lowering and
      raising back restores them only when the cut did not hit the floor. */
  lemma ReconcileRoundTrip(oldSlot: Slot, capacity: int)
    requires oldSlot.nbRemainingPlaces >= 0 && oldSlot.nbPotentialRemainingPlaces >= 0
    ensures capacity > oldSlot.maxCapacity ==>
      var raised := Reconcile(oldSlot.(maxCapacity := capacity), oldSlot);
      Reconcile(raised.(maxCapacity := oldSlot.maxCapacity), raised) == oldSlot
    ensures capacity < oldSlot.maxCapacity ==>
      var lowered := Reconcile(oldSlot.(maxCapacity := capacity), oldSlot);
      var back := Reconcile(lowered.(maxCapacity := oldSlot.maxCapacity), lowered);
      (back == oldSlot <==>
         oldSlot.nbRemainingPlaces >= oldSlot.maxCapacity - capacity
         && oldSlot.nbPotentialRemainingPlaces >= oldSlot.maxCapacity - capacity)
  {
  }

  /** The ledger a slot keeps: nothing overbooked, and both remaining counters are the
      capacity minus the seats taken. */
  predicate Balanced(s: Slot)
  {
    && 0 <= s.nbPlacesTaken <= s.maxCapacity
    && s.nbRemainingPlaces == s.maxCapacity - s.nbPlacesTaken
    && s.nbPotentialRemainingPlaces == s.maxCapacity - s.nbPlacesTaken
  }

  /** A capacity change that stays at or above the seats taken keeps the ledger balanced:
      the remaining places are the new capacity minus the seats taken. */
  lemma {:induction false} ReconcileKeepsBalance(oldSlot: Slot, capacity: int)
    requires Balanced(oldSlot)
    requires capacity >= oldSlot.nbPlacesTaken
    ensures Balanced(Reconcile(oldSlot.(maxCapacity := capacity), oldSlot))
    ensures Reconcile(oldSlot.(maxCapacity := capacity), oldSlot).nbRemainingPlaces == capacity - oldSlot.nbPlacesTaken
  {
    var r := Reconcile(oldSlot.(maxCapacity := capacity), oldSlot);
    if capacity < oldSlot.maxCapacity {
      assert oldSlot.nbRemainingPlaces - (oldSlot.maxCapacity - capacity) == capacity - oldSlot.nbPlacesTaken;
      assert r.nbRemainingPlaces == capacity - oldSlot.nbPlacesTaken;
    }
  }

  /** A cut below the seats taken overbooks the slot, as the source warns: no place is
      left, and raising the capacity back afterwards hands out more places than the
      seats that are actually free. */
  lemma ReconcileForgetsOverbooking(oldSlot: Slot, capacity: int)
    requires Balanced(oldSlot)
    requires 0 <= capacity < oldSlot.nbPlacesTaken
    ensures var lowered := Reconcile(oldSlot.(maxCapacity := capacity), oldSlot);
      && lowered.nbRemainingPlaces == 0 && lowered.nbPlacesTaken > lowered.maxCapacity
      && Reconcile(lowered.(maxCapacity := oldSlot.maxCapacity), lowered).nbRemainingPlaces
         == oldSlot.nbRemainingPlaces + (oldSlot.nbPlacesTaken - capacity)
  {
  }

  /** Taking `n` seats of a slot (an appointment for `n` people). */
  function Book(s: Slot, n: int): (r: Slot)
    ensures Balanced(s) && 0 <= n <= s.nbRemainingPlaces ==> Balanced(r)
    ensures r.nbPlacesTaken + r.nbRemainingPlaces == s.nbPlacesTaken + s.nbRemainingPlaces
    ensures r.maxCapacity == s.maxCapacity
  {
    s.(nbPlacesTaken := s.nbPlacesTaken + n,
       nbRemainingPlaces := s.nbRemainingPlaces - n,
       nbPotentialRemainingPlaces := s.nbPotentialRemainingPlaces - n)
  }

  /** Giving back `n` seats (an appointment deleted or cancelled). */
  function Release(s: Slot, n: int): (r: Slot)
    ensures Balanced(s) && 0 <= n <= s.nbPlacesTaken ==> Balanced(r)
    ensures r.nbPlacesTaken + r.nbRemainingPlaces == s.nbPlacesTaken + s.nbRemainingPlaces
    ensures r.maxCapacity == s.maxCapacity
  {
    s.(nbPlacesTaken := s.nbPlacesTaken - n,
       nbRemainingPlaces := s.nbRemainingPlaces + n,
       nbPotentialRemainingPlaces := s.nbPotentialRemainingPlaces + n)
  }

  /** Releasing a booking undoes it, and bookings commute. */
  lemma BookRelease(s: Slot, n: int, m: int)
    ensures Release(Book(s, n), n) == s
    ensures Book(Book(s, n), m) == Book(Book(s, m), n)
  {
  }

  /** A slot of the given capacity with no seat taken, as the tests build it. */
  predicate Unbooked(s: Slot, capacity: int)
  {
    Balanced(s) && s.maxCapacity == capacity && s.nbPlacesTaken == 0
  }

  /** The seat counts the tests expect after bookings: capacity 2 with 1+1 booked leaves
      nothing, capacity 3 with 1+1 leaves one place, capacity 3 with 1+2 leaves nothing. */
  lemma BookingScenarios(two: Slot, three: Slot)
    requires Unbooked(two, 2) && Unbooked(three, 3)
    ensures var s := Book(Book(two, 1), 1);
      s.nbPlacesTaken == 2 && s.nbRemainingPlaces == 0 && s.nbPotentialRemainingPlaces == 0
    ensures var s := Book(Book(three, 1), 1);
      s.nbPlacesTaken == 2 && s.nbRemainingPlaces == 1 && s.nbPotentialRemainingPlaces == 1
    ensures var s := Book(Book(three, 1), 2);
      s.nbPlacesTaken == 3 && s.nbRemainingPlaces == 0 && s.nbPotentialRemainingPlaces == 0
  {
  }

  /** The seat counts the tests expect after deleting or cancelling the only booking of a
      slot: all of its places are free again. */
  lemma ReleaseOnlyBookingScenarios(one: Slot, two: Slot)
    requires Unbooked(one, 1) && Unbooked(two, 2)
    ensures var s := Release(Book(one, 1), 1);
      s.nbPlacesTaken == 0 && s.nbRemainingPlaces == 1 && s.nbPotentialRemainingPlaces == 1
    ensures var s := Release(Book(two, 1), 1);
      s.nbPlacesTaken == 0 && s.nbRemainingPlaces == 2 && s.nbPotentialRemainingPlaces == 2
  {
  }

  /** The seat counts the tests expect after deleting or cancelling one of two bookings:
      capacity 2 with 1+1 booked, one given back, leaves one place; capacity 3 with 2+1
      booked, the booking of 2 given back, leaves two. */
  lemma ReleaseOneOfTwoBookingsScenarios(two: Slot, three: Slot)
    requires Unbooked(two, 2) && Unbooked(three, 3)
    ensures var s := Release(Book(Book(two, 1), 1), 1);
      s.nbPlacesTaken == 1 && s.nbRemainingPlaces == 1 && s.nbPotentialRemainingPlaces == 1
    ensures var s := Release(Book(Book(three, 2), 1), 2);
      s.nbPlacesTaken == 1 && s.nbRemainingPlaces == 2 && s.nbPotentialRemainingPlaces == 2
  {
  }
}
