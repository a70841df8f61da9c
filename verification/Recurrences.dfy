/** The dates a recurring schedule generates (`src/domain/schedule.rs`, lines 107-191). */
module Recurrences {
  import opened Wrappers
  import opened Cents
  import opened Calendar
  import opened Entities

  const MAX_U32 := 0xffff_ffff
  type U32 = x: int | 0 <= x <= MAX_U32

  datatype Recurrence = Daily | Weekly | EveryTwoWeeks | Monthly | Yearly | CustomDays(days: U32)

  /** The error values, and `Aborted` for the panic of an `expect` on a date that does not exist. */
  datatype ScheduleError =
    | ScheduleNotFound
    | InvalidCustomInterval
    | EndBeforeStart
    | DateOutOfRange
    | DuplicateOccurrenceIdentity
    | InvalidLookAhead
    | OccurrenceUnavailable
    | Aborted

  datatype Schedule = Schedule(
    id: ScheduleId,
    version: U32,
    accountId: AccountId,
    startDate: Date,
    amount: Money,
    payeeId: Option<PayeeId>,
    categoryId: Option<CategoryId>,
    recurrence: Recurrence,
    endDate: Option<Date>,
    active: bool)

  /** The last day of a month, found as the day before the first of the next; `None` is a panic. */
  function DaysInMonth(year: int, month: int): Option<int>
    requires 1 <= month <= 12
  {
    var next := if month == 12 then CalendarDate(year + 1, 1, 1) else CalendarDate(year, month + 1, 1);
    if !next.Valid() then None
    else match AddDays(next, -1) case None => None case Some(last) => Some(last.day)
  }

  function AddMonthsClamped(date: Date, count: U32): Result<Date, ScheduleError> {
    var absolute := MonthIndex(date) + count;
    var year, month := absolute / 12, absolute % 12 + 1;
    match DaysInMonth(year, month)
    case None => Err(Aborted)
    case Some(last) =>
      var candidate := CalendarDate(year, month, Min(date.day, last));
      if candidate.Valid() then Ok(candidate) else Err(DateOutOfRange)
  }

  function AddDaysChecked(date: Date, days: int): Result<Date, ScheduleError> {
    match AddDays(date, days) case None => Err(DateOutOfRange) case Some(later) => Ok(later)
  }

  /** The date of one occurrence before the end date is looked at. */
  function RawDate(schedule: Schedule, sequence: U32): Result<Date, ScheduleError> {
    match schedule.recurrence
    case Daily => AddDaysChecked(schedule.startDate, sequence)
    case Weekly => AddDaysChecked(schedule.startDate, sequence * 7)
    case EveryTwoWeeks => AddDaysChecked(schedule.startDate, sequence * 14)
    case CustomDays(days) =>
      if days > 0 then AddDaysChecked(schedule.startDate, sequence * days) else Err(InvalidCustomInterval)
    case Monthly => AddMonthsClamped(schedule.startDate, sequence)
    case Yearly =>
      if sequence * 12 > MAX_U32 then Err(DateOutOfRange)
      else AddMonthsClamped(schedule.startDate, sequence * 12)
  }

  function OccurrenceDate(schedule: Schedule, sequence: U32): Result<Option<Date>, ScheduleError> {
    var date :- RawDate(schedule, sequence);
    match schedule.endDate
    case None => Ok(Some(date))
    case Some(end) => Ok(if NotAfter(date, end) then Some(date) else None)
  }

  // ----- What the dates are -------------------------------------------------------------------

  /** The day-before computation is the Gregorian month table wherever it does not panic. */
  lemma DaysInMonthIsGregorian(year: int, month: int)
    requires 1 <= month <= 12 && MIN_YEAR <= year
    ensures DaysInMonth(year, month)
         == if year < MAX_YEAR || (year == MAX_YEAR && month < 12) then Some(MonthLength(year, month)) else None
  {
    if year < MAX_YEAR || (year == MAX_YEAR && month < 12) {
      var next: Date := if month == 12 then CalendarDate(year + 1, 1, 1) else CalendarDate(year, month + 1, 1);
      var last: Date := CalendarDate(year, month, MonthLength(year, month));
      assert Next(last) == next;
      AddDaysExact(next, -1, last);
    }
  }

  /**
   Month arithmetic from any date: it lands `count` calendar months on, on the start day or the
   last day of a shorter month, and it panics exactly from December of the last year onwards.
   */
  lemma {:induction false} MonthAnchored(date: Date, count: U32)
    ensures var r := AddMonthsClamped(date, count);
            if MonthIndex(date) + count < MAX_YEAR * 12 + 11 then
              && r.Ok?
              && MonthIndex(r.value) == MonthIndex(date) + count
              && r.value.day == Min(date.day, MonthLength(r.value.year, r.value.month))
            else r == Err(Aborted)
  {
    var absolute := MonthIndex(date) + count;
    DaysInMonthIsGregorian(absolute / 12, absolute % 12 + 1);
  }

  lemma {:induction false} Stretch(sequence: nat, later: nat, days: nat)
    requires sequence < later && days > 0
    ensures sequence * days + (later - sequence) <= later * days
  {
    var gap := later - sequence;
    assert gap * days >= gap by {
      assert gap * (days - 1) >= 0;
      assert gap * days == gap * (days - 1) + gap;
    }
    assert later * days == (sequence + gap) * days;
    assert (sequence + gap) * days == sequence * days + gap * days;
  }

  lemma {:induction false} MonthsApart(a: Date, b: Date, months: nat)
    requires 0 < months && MonthIndex(b) == MonthIndex(a) + months
    ensures Ordinal(a) + months <= Ordinal(b)
    decreases months
  {
    if months == 1 {
      LaterMonthIsLater(a, b);
      OrdinalIncreases(a, b);
    } else {
      var previous := MonthIndex(b) - 1;
      var middle: Date := CalendarDate(previous / 12, previous % 12 + 1, 1);
      assert MonthIndex(middle) == previous;
      MonthsApart(a, middle, months - 1);
      LaterMonthIsLater(middle, b);
      OrdinalIncreases(middle, b);
    }
  }

  /** The day number of a day-based occurrence. */
  lemma DayBased(schedule: Schedule, sequence: U32, days: nat)
    requires days == match schedule.recurrence
                     case Daily => 1 case Weekly => 7 case EveryTwoWeeks => 14 case CustomDays(n) => n
                     case Monthly => 0 case Yearly => 0
    requires days > 0 && RawDate(schedule, sequence).Ok?
    ensures Ordinal(RawDate(schedule, sequence).value) == Ordinal(schedule.startDate) + sequence * days
  {
    AddDaysExact(schedule.startDate, sequence * days, RawDate(schedule, sequence).value);
  }

  /** For every recurrence a later occurrence falls at least one day later per step. */
  lemma {:induction false} RawDatesSpread(schedule: Schedule, sequence: U32, later: U32)
    requires sequence < later
    requires RawDate(schedule, sequence).Ok? && RawDate(schedule, later).Ok?
    ensures Ordinal(RawDate(schedule, sequence).value) + (later - sequence) <= Ordinal(RawDate(schedule, later).value)
  {
    var a, b := RawDate(schedule, sequence).value, RawDate(schedule, later).value;
    match schedule.recurrence
    case Monthly =>
      MonthAnchored(schedule.startDate, sequence);
      MonthAnchored(schedule.startDate, later);
      MonthsApart(a, b, later - sequence);
    case Yearly =>
      MonthAnchored(schedule.startDate, sequence * 12);
      MonthAnchored(schedule.startDate, later * 12);
      MonthsApart(a, b, (later - sequence) * 12);
    case _ =>
      var days := match schedule.recurrence
        case Daily => 1 case Weekly => 7 case EveryTwoWeeks => 14 case CustomDays(n) => n
        case Monthly => 0 case Yearly => 0;
      DayBased(schedule, sequence, days);
      DayBased(schedule, later, days);
      Stretch(sequence, later, days);
  }

  /** Generated dates strictly increase with the sequence number, whatever the recurrence. */
  lemma OccurrenceDatesIncrease(schedule: Schedule, sequence: U32, later: U32)
    requires sequence < later
    requires OccurrenceDate(schedule, sequence).Ok? && OccurrenceDate(schedule, sequence).value.Some?
    requires OccurrenceDate(schedule, later).Ok? && OccurrenceDate(schedule, later).value.Some?
    ensures Before(OccurrenceDate(schedule, sequence).value.value, OccurrenceDate(schedule, later).value.value)
  {
    RawDatesSpread(schedule, sequence, later);
    OrderIsOrdinal(RawDate(schedule, sequence).value, RawDate(schedule, later).value);
  }

  lemma AddNoDays(date: Date)
    ensures AddDaysChecked(date, 0) == Ok(date)
  {
    OrdinalBounds(date);
    AddDaysExact(date, 0, date);
  }

  lemma SameMonthSameDay(a: Date, b: Date)
    requires MonthIndex(a) == MonthIndex(b) && a.day == Min(b.day, MonthLength(a.year, a.month))
    ensures a == b
  {
  }

  lemma {:induction false} AddNoMonths(date: Date, count: U32)
    requires AddMonthsClamped(date, count).Ok?
    ensures AddMonthsClamped(date, 0) == Ok(date)
  {
    hide AddMonthsClamped;
    MonthAnchored(date, count);
    MonthAnchored(date, 0);
    SameMonthSameDay(AddMonthsClamped(date, 0).value, date);
  }

  lemma FirstRawDate(schedule: Schedule, sequence: U32)
    requires RawDate(schedule, sequence).Ok?
    ensures RawDate(schedule, 0) == Ok(schedule.startDate)
  {
    match schedule.recurrence
    case Monthly => AddNoMonths(schedule.startDate, sequence);
    case Yearly => AddNoMonths(schedule.startDate, sequence * 12);
    case _ => AddNoDays(schedule.startDate);
  }

  /** An occurrence is never dated before the start plus one day per step. */
  lemma {:induction false} RawDateFromStart(schedule: Schedule, sequence: U32)
    requires RawDate(schedule, sequence).Ok?
    ensures Ordinal(schedule.startDate) + sequence <= Ordinal(RawDate(schedule, sequence).value)
  {
    FirstRawDate(schedule, sequence);
    if sequence > 0 {
      RawDatesSpread(schedule, 0, sequence);
    }
  }

  /** Computing a date never reports a duplicate. */
  lemma NoOtherError(schedule: Schedule, sequence: U32)
    ensures OccurrenceDate(schedule, sequence) != Err(DuplicateOccurrenceIdentity)
  {
    hide Ordinal, AddDays;
  }

  lemma FewerDays(date: Date, fewer: nat, days: nat)
    requires fewer <= days && AddDaysChecked(date, days).Ok?
    ensures AddDaysChecked(date, fewer).Ok?
  {
    hide Ordinal;
    OrdinalBounds(date);
  }

  lemma FewerMonths(date: Date, fewer: U32, months: U32)
    requires fewer <= months && AddMonthsClamped(date, months).Ok?
    ensures AddMonthsClamped(date, fewer).Ok?
  {
    hide AddMonthsClamped;
    MonthAnchored(date, months);
    MonthAnchored(date, fewer);
  }

  /** If an occurrence has a date or is past the end, so has or is every earlier one. */
  lemma {:induction false} EarlierDateExists(schedule: Schedule, sequence: U32, later: U32)
    requires sequence <= later && OccurrenceDate(schedule, later).Ok?
    ensures OccurrenceDate(schedule, sequence).Ok?
  {
    hide AddDaysChecked, AddMonthsClamped;
    var start := schedule.startDate;
    match schedule.recurrence
    case Monthly => FewerMonths(start, sequence, later);
    case Yearly => FewerMonths(start, sequence * 12, later * 12);
    case Daily => FewerDays(start, sequence, later);
    case Weekly => FewerDays(start, sequence * 7, later * 7);
    case EveryTwoWeeks => FewerDays(start, sequence * 14, later * 14);
    case CustomDays(days) =>
      if sequence < later {
        Stretch(sequence, later, days);
        FewerDays(start, sequence * days, later * days);
      }
  }

  /** Once the series has passed a date, by its end or by its own date, it never comes back to it. */
  lemma {:induction false} SeriesHasPassed(schedule: Schedule, sequence: U32, later: U32, limit: Date)
    requires sequence <= later && OccurrenceDate(schedule, sequence).Ok?
    requires OccurrenceDate(schedule, sequence).value.Some? ==>
               Before(limit, OccurrenceDate(schedule, sequence).value.value)
    ensures var next := OccurrenceDate(schedule, later);
            next.Ok? && next.value.Some? ==> Before(limit, next.value.value)
  {
    var next := OccurrenceDate(schedule, later);
    if next.Ok? && next.value.Some? && sequence < later {
      RawDatesSpread(schedule, sequence, later);
      OrderIsOrdinal(RawDate(schedule, sequence).value, RawDate(schedule, later).value);
    }
  }
}
