/** The consistency checks the back office runs on an appointment form before it saves
    it (the check* helpers of AppointmentFormJspBean). Each check answers whether the form
    passes and lists, in order, the keys of the error messages it adds to the page. */
module FormValidation {
  import opened SlotTypes

  /** The fields of the form the checks read. Times are minutes of the day, the validity
      dates are day indices, absent when the form leaves them empty. */
  datatype AppointmentForm = AppointmentForm(
    timeStart: int,
    timeEnd: int,
    durationAppointments: int,
    dateStartValidity: Option<int>,
    dateEndValidity: Option<int>,
    maxPeoplePerAppointment: int,
    maxCapacityPerSlot: int,
    isOpenMonday: bool,
    isOpenTuesday: bool,
    isOpenWednesday: bool,
    isOpenThursday: bool,
    isOpenFriday: bool,
    isOpenSaturday: bool,
    isOpenSunday: bool)

  /** The answer of a check and the error messages it adds, in the order it adds them. */
  datatype Verdict = Verdict(ok: bool, errors: seq<string>)

  const TimeStartAfterTimeEnd := "appointment.message.error.timeStartAfterTimeEnd"
  const DateStartAfterDateEnd := "appointment.message.error.dateStartAfterTimeEnd"
  const NoWorkingDayChecked := "appointment.message.error.noWorkingDayChecked"
  const AppointmentLongerThanDay := "appointment.message.error.formatDaysBeforeAppointmentMiddleSuperior"
  const DayNotMultipleOfDuration := "appointment.message.error.durationAppointmentDayNotMultipleForm"
  const TooManyPeoplePerAppointment := "appointment.message.error.numberOfSeatsBookedAndConcurrentAppointments"

  /** The message is added exactly when the condition holds. */
  function ErrorIf(condition: bool, message: string): (r: seq<string>)
    ensures message in r <==> condition
    ensures r == [] <==> !condition
  {
    if condition then [message] else []
  }

  /** Java's `%` on long values: the remainder takes the sign of the dividend. */
  function JavaRem(a: int, b: int): (r: int)
    requires b != 0
    ensures a >= 0 ==> 0 <= r < Abs(b)
    ensures a < 0 ==> -Abs(b) < r <= 0
  {
    if a >= 0 then a % b else -((-a) % b)
  }

  function Abs(x: int): (r: int)
    ensures r >= 0 && (r == x || r == -x)
  {
    if x < 0 then -x else x
  }

  /** Java's remainder is zero exactly when the dividend is a multiple of the divisor,
      whatever their signs. */
  lemma JavaRemZero(a: int, b: int)
    requires b != 0
    ensures JavaRem(a, b) == 0 <==> exists n :: n * b == a
  {
    if a >= 0 {
      EuclideanRemZero(a, b);
    } else {
      EuclideanRemZero(-a, b);
      if exists n :: n * b == -a {
        var n :| n * b == -a;
        assert (-n) * b == a;
      }
      if exists n :: n * b == a {
        var n :| n * b == a;
        assert (-n) * b == -a;
      }
    }
  }

  /** The Euclidean remainder is zero exactly for the multiples of the divisor. */
  lemma EuclideanRemZero(a: int, b: int)
    requires b != 0
    ensures a % b == 0 <==> exists n :: n * b == a
  {
    var q := a / b;
    assert a == q * b + a % b;
    if exists n :: n * b == a {
      var n :| n * b == a;
      assert a % b == (n - q) * b;
      ProductMagnitude(n - q, b);
    }
  }

  /** A non-zero multiple of `b` is at least as large as `b`. */
  lemma ProductMagnitude(k: int, b: int)
    ensures k != 0 ==> Abs(k * b) >= Abs(b)
  {
    if k > 0 {
      assert k * b == (k - 1) * b + b;
      if b > 0 { assert (k - 1) * b >= 0; } else { assert (k - 1) * b <= 0; }
    } else if k < 0 {
      assert k * b == (k + 1) * b - b;
      if b > 0 { assert (k + 1) * b <= 0; } else { assert (k + 1) * b >= 0; }
    }
  }

  /** A product with a positive factor `d` is at least `d` exactly when the other factor
      is at least one. */
  lemma ProductAtLeast(n: int, d: int)
    requires d > 0
    ensures n >= 1 <==> n * d >= d
  {
    if n >= 1 {
      assert n * d == (n - 1) * d + d;
    } else {
      assert n * d == d - (1 - n) * d;
    }
  }

  /** The number of minutes from the form's opening time to its closing time
      (`LocalTime.until` in minutes), negative when it closes before it opens. */
  function DayLength(form: AppointmentForm): int
  {
    form.timeEnd - form.timeStart
  }

  /** checkStartingAndEndingTime: the form opens no later than it closes, an appointment
      fits in the day, and the day is a whole number of appointments. All three tests run,
      each adding its own message. The source divides by the duration, which must not be
      zero. */
  function CheckStartingAndEndingTime(form: AppointmentForm): (r: Verdict)
    requires form.durationAppointments != 0
    ensures r.ok <==> r.errors == []
    ensures TimeStartAfterTimeEnd in r.errors <==> form.timeStart > form.timeEnd
    ensures AppointmentLongerThanDay in r.errors <==> form.durationAppointments > DayLength(form)
    ensures DayNotMultipleOfDuration in r.errors <==> !exists n :: n * form.durationAppointments == DayLength(form)
  {
    var minutes := DayLength(form);
    JavaRemZero(minutes, form.durationAppointments);
    var errors := ErrorIf(form.timeStart > form.timeEnd, TimeStartAfterTimeEnd)
                  + ErrorIf(form.durationAppointments > minutes, AppointmentLongerThanDay)
                  + ErrorIf(JavaRem(minutes, form.durationAppointments) != 0, DayNotMultipleOfDuration);
    Verdict(errors == [], errors)
  }

  /** With a positive duration, the time check passes exactly when the day is one or more
      whole appointments long. */
  lemma TimeCheckSplitsTheDay(form: AppointmentForm)
    requires form.durationAppointments > 0
    ensures CheckStartingAndEndingTime(form).ok <==>
              exists n :: n >= 1 && DayLength(form) == n * form.durationAppointments
  {
    var d := form.durationAppointments;
    var r := CheckStartingAndEndingTime(form);
    if r.ok {
      var n :| n * d == DayLength(form);
      ProductAtLeast(n, d);
    }
    if exists n :: n >= 1 && DayLength(form) == n * d {
      var n :| n >= 1 && DayLength(form) == n * d;
      ProductAtLeast(n, d);
    }
  }

  /** checkStartingAndEndingValidityDate: fails only when both validity dates are given
      and the first comes after the last. */
  function CheckStartingAndEndingValidityDate(form: AppointmentForm): (r: Verdict)
    ensures r.ok <==> r.errors == []
    ensures r.ok <==> (form.dateStartValidity.None? || form.dateEndValidity.None?
                       || form.dateStartValidity.value <= form.dateEndValidity.value)
    ensures r.errors == [] || r.errors == [DateStartAfterDateEnd]
  {
    var bothGiven := form.dateStartValidity.Some? && form.dateEndValidity.Some?;
    var errors := ErrorIf(bothGiven && form.dateStartValidity.value > form.dateEndValidity.value, DateStartAfterDateEnd);
    Verdict(errors == [], errors)
  }

  /** checkSlotCapacityAndPeoplePerAppointment: one appointment may not book more people
      than a slot holds. */
  function CheckSlotCapacityAndPeoplePerAppointment(form: AppointmentForm): (r: Verdict)
    ensures r.ok <==> r.errors == []
    ensures r.ok <==> form.maxPeoplePerAppointment <= form.maxCapacityPerSlot
    ensures r.errors == [] || r.errors == [TooManyPeoplePerAppointment]
  {
    var errors := ErrorIf(form.maxPeoplePerAppointment > form.maxCapacityPerSlot, TooManyPeoplePerAppointment);
    Verdict(errors == [], errors)
  }

  /** Whether the form opens on the day of the week (1 is Monday, 7 is Sunday). */
  function IsOpenOn(form: AppointmentForm, dayOfWeek: int): bool
  {
    match dayOfWeek
    case 1 => form.isOpenMonday
    case 2 => form.isOpenTuesday
    case 3 => form.isOpenWednesday
    case 4 => form.isOpenThursday
    case 5 => form.isOpenFriday
    case 6 => form.isOpenSaturday
    case 7 => form.isOpenSunday
    case _ => false
  }

  /** checkAtLeastOneWorkingDayOpen: the form opens on some day of the week. */
  function CheckAtLeastOneWorkingDayOpen(form: AppointmentForm): (r: Verdict)
    ensures r.ok <==> r.errors == []
    ensures r.ok <==> exists d :: 1 <= d <= 7 && IsOpenOn(form, d)
    ensures r.errors == [] || r.errors == [NoWorkingDayChecked]
  {
    var anyOpen := form.isOpenMonday || form.isOpenTuesday || form.isOpenWednesday || form.isOpenThursday
                   || form.isOpenFriday || form.isOpenSaturday || form.isOpenSunday;
    assert anyOpen ==> exists d :: 1 <= d <= 7 && IsOpenOn(form, d) by {
      if form.isOpenMonday { assert IsOpenOn(form, 1); }
      else if form.isOpenTuesday { assert IsOpenOn(form, 2); }
      else if form.isOpenWednesday { assert IsOpenOn(form, 3); }
      else if form.isOpenThursday { assert IsOpenOn(form, 4); }
      else if form.isOpenFriday { assert IsOpenOn(form, 5); }
      else if form.isOpenSaturday { assert IsOpenOn(form, 6); }
      else if form.isOpenSunday { assert IsOpenOn(form, 7); }
    }
    var errors := ErrorIf(!anyOpen, NoWorkingDayChecked);
    Verdict(errors == [], errors)
  }

  /** checkConstraints: the four checks in the order time, validity dates, capacity,
      working day, stopping at the first that fails, so that only its messages are added. */
  function CheckConstraints(form: AppointmentForm): (r: Verdict)
    requires form.durationAppointments != 0
    ensures r.ok <==> && CheckStartingAndEndingTime(form).ok
                      && CheckStartingAndEndingValidityDate(form).ok
                      && CheckSlotCapacityAndPeoplePerAppointment(form).ok
                      && CheckAtLeastOneWorkingDayOpen(form).ok
    ensures r.ok <==> r.errors == []
    ensures !CheckStartingAndEndingTime(form).ok ==> r.errors == CheckStartingAndEndingTime(form).errors
    ensures CheckStartingAndEndingTime(form).ok && !CheckStartingAndEndingValidityDate(form).ok ==>
              r.errors == [DateStartAfterDateEnd]
    ensures (CheckStartingAndEndingTime(form).ok && CheckStartingAndEndingValidityDate(form).ok
             && !CheckSlotCapacityAndPeoplePerAppointment(form).ok) ==> r.errors == [TooManyPeoplePerAppointment]
    ensures (CheckStartingAndEndingTime(form).ok && CheckStartingAndEndingValidityDate(form).ok
             && CheckSlotCapacityAndPeoplePerAppointment(form).ok && !CheckAtLeastOneWorkingDayOpen(form).ok) ==>
              r.errors == [NoWorkingDayChecked]
  {
    var time := CheckStartingAndEndingTime(form);
    if !time.ok then time
    else
      var validity := CheckStartingAndEndingValidityDate(form);
      if !validity.ok then validity
      else
        var capacity := CheckSlotCapacityAndPeoplePerAppointment(form);
        if !capacity.ok then capacity
        else CheckAtLeastOneWorkingDayOpen(form)
  }
}
