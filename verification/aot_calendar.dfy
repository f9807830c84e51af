/**
 * The campus calendar: the displayed month and its grid, the events of one
 * day, month navigation, creating and deleting events, and the list of the
 * next five events. Dates are read in local time, in the proleptic Gregorian
 * calendar that `Date` uses.
 */
module AotCalendar {
  import opened Types
  import opened Seqs

  const MsPerDay := 86400000

  predicate IsLeapYear(year: int)
  {
    (year % 4 == 0 && year % 100 != 0) || year % 400 == 0
  }

  /** The length of month `month` (0 = January) of `year`. */
  function DaysInMonth(year: int, month: int): (n: int)
    ensures 28 <= n <= 31
    ensures month == 1 ==> (n == 29 <==> IsLeapYear(year))
  {
    if month == 1 then (if IsLeapYear(year) then 29 else 28)
    else if month == 3 || month == 5 || month == 8 || month == 10 then 30
    else 31
  }

  /** Days from 1 January of year 1 to 1 January of `year` (negative before it). */
  function DaysBeforeYear(year: int): int
  {
    365 * (year - 1) + (year - 1) / 4 - (year - 1) / 100 + (year - 1) / 400
  }

  /** Days from 1 January to the first of month `month` of `year`. */
  function DaysBeforeMonth(year: int, month: int): int
    decreases month
  {
    if month <= 0 then 0 else DaysBeforeMonth(year, month - 1) + DaysInMonth(year, month - 1)
  }

  /** Days from 1 January of year 1 to the given date. */
  function DayNumber(year: int, month: int, day: int): int
  {
    DaysBeforeYear(year) + DaysBeforeMonth(year, month) + day - 1
  }

  /** `getDay()`: 0 = Sunday; 1 January of year 1 was a Monday. */
  function Weekday(year: int, month: int, day: int): (w: int)
    ensures 0 <= w < 7
  {
    (DayNumber(year, month, day) + 1) % 7
  }

  /** A year has 366 days when it is a leap year and 365 otherwise. */
  lemma YearLength(year: int)
    ensures DaysBeforeYear(year + 1) == DaysBeforeYear(year) + (if IsLeapYear(year) then 366 else 365)
  {
    QuotientStep4(year - 1);
    QuotientStep100(year - 1);
    QuotientStep400(year - 1);
    LeapDivisors(year);
  }

  /** A multiple of 400 is a multiple of 100, and a multiple of 100 is a multiple of 4. */
  lemma LeapDivisors(year: int)
    ensures year % 400 == 0 ==> year % 100 == 0
    ensures year % 100 == 0 ==> year % 4 == 0
  {
  }

  lemma QuotientStep4(y: int)
    ensures (y + 1) / 4 == y / 4 + (if (y + 1) % 4 == 0 then 1 else 0)
  {
  }

  lemma QuotientStep100(y: int)
    ensures (y + 1) / 100 == y / 100 + (if (y + 1) % 100 == 0 then 1 else 0)
  {
  }

  lemma QuotientStep400(y: int)
    ensures (y + 1) / 400 == y / 400 + (if (y + 1) % 400 == 0 then 1 else 0)
  {
  }

  /** The twelve months add up to the length of the year. */
  lemma MonthsFillYear(year: int)
    ensures DaysBeforeMonth(year, 12) == if IsLeapYear(year) then 366 else 365
  {
    var feb := DaysInMonth(year, 1);
    assert DaysBeforeMonth(year, 1) == 31;
    assert DaysBeforeMonth(year, 2) == 31 + feb;
    assert DaysBeforeMonth(year, 3) == 62 + feb;
    assert DaysBeforeMonth(year, 4) == 92 + feb;
    assert DaysBeforeMonth(year, 5) == 123 + feb;
    assert DaysBeforeMonth(year, 6) == 153 + feb;
    assert DaysBeforeMonth(year, 7) == 184 + feb;
    assert DaysBeforeMonth(year, 8) == 215 + feb;
    assert DaysBeforeMonth(year, 9) == 245 + feb;
    assert DaysBeforeMonth(year, 10) == 276 + feb;
    assert DaysBeforeMonth(year, 11) == 306 + feb;
  }

  /** A month of the calendar grid: `new Date(year, month, 1)` after `Date`'s normalisation. */
  datatype YearMonth = YearMonth(year: int, month: int)

  predicate ValidMonth(ym: YearMonth)
  {
    0 <= ym.month < 12
  }

  /** The year `new Date(yearArg, month, day)` reads: an argument in 0..99 means 1900 + it. */
  function DateYear(yearArg: int): int
  {
    if 0 <= yearArg <= 99 then 1900 + yearArg else yearArg
  }

  /**
   * `new Date(yearArg, monthArg, 1)` read back as (year, month): the year is
   * read by `DateYear`, and an out-of-range month carries into the year.
   */
  function MonthOf(yearArg: int, monthArg: int): (ym: YearMonth)
    ensures ValidMonth(ym)
  {
    YearMonth(DateYear(yearArg) + monthArg / 12, monthArg % 12)
  }

  /** `handlePrevMonth` (AOTCalendar.tsx:111-113). */
  function PrevMonth(ym: YearMonth): (r: YearMonth)
    requires ValidMonth(ym)
    ensures ValidMonth(r)
  {
    MonthOf(ym.year, ym.month - 1)
  }

  /** `handleNextMonth` (AOTCalendar.tsx:115-117). */
  function NextMonth(ym: YearMonth): (r: YearMonth)
    requires ValidMonth(ym)
    ensures ValidMonth(r)
  {
    MonthOf(ym.year, ym.month + 1)
  }

  /** Next moves one month forward from the year `Date` reads, wrapping December to January of the next year. */
  lemma NextMonthSteps(ym: YearMonth)
    requires ValidMonth(ym)
    ensures NextMonth(ym) ==
      if ym.month == 11 then YearMonth(DateYear(ym.year) + 1, 0) else YearMonth(DateYear(ym.year), ym.month + 1)
  {
  }

  /** Prev moves one month back from the year `Date` reads, wrapping January to December of the year before. */
  lemma PrevMonthSteps(ym: YearMonth)
    requires ValidMonth(ym)
    ensures PrevMonth(ym) ==
      if ym.month == 0 then YearMonth(DateYear(ym.year) - 1, 11) else YearMonth(DateYear(ym.year), ym.month - 1)
  {
  }

  /** Next and prev undo each other on every month whose neighbours are not in a two-digit year. */
  lemma NextPrevInverse(ym: YearMonth)
    requires ValidMonth(ym) && (ym.year < -1 || ym.year > 100)
    ensures NextMonth(PrevMonth(ym)) == ym
    ensures PrevMonth(NextMonth(ym)) == ym
  {
    PrevMonthSteps(ym);
    NextMonthSteps(ym);
    NextMonthSteps(PrevMonth(ym));
    PrevMonthSteps(NextMonth(ym));
  }

  /** Going back from January of year 100 lands in December of year 99, from which next jumps to the year 2000. */
  lemma TwoDigitYearJump()
    ensures PrevMonth(YearMonth(100, 0)) == YearMonth(99, 11)
    ensures NextMonth(YearMonth(99, 11)) == YearMonth(2000, 0)
  {
  }

  /** What `getDaysInMonth` (AOTCalendar.tsx:87-96) computes for the grid. */
  datatype MonthGrid = MonthGrid(daysInMonth: int, startingDayOfWeek: int, year: int, month: int)

  /**
   * `getDaysInMonth`: both `new Date(year, month, 1)` and
   * `new Date(year, month + 1, 0)` read the year through `DateYear`, so a
   * month of a year in 0..99 is laid out as that month of 1900 + year.
   */
  function GetDaysInMonth(ym: YearMonth): (g: MonthGrid)
    requires ValidMonth(ym)
    ensures 28 <= g.daysInMonth <= 31 && 0 <= g.startingDayOfWeek < 7
    ensures g.year == ym.year && g.month == ym.month
  {
    var year := DateYear(ym.year);
    MonthGrid(DaysInMonth(year, ym.month), Weekday(year, ym.month, 1), ym.year, ym.month)
  }

  /** `daysInMonth` is the last day of the month: the day after it is the first of the next month. */
  lemma NextMonthFollows(ym: YearMonth)
    requires ValidMonth(ym)
    ensures var next := NextMonth(ym);
      DayNumber(next.year, next.month, 1) == DayNumber(DateYear(ym.year), ym.month, GetDaysInMonth(ym).daysInMonth) + 1
  {
    NextMonthSteps(ym);
    if ym.month == 11 {
      YearLength(DateYear(ym.year));
      MonthsFillYear(DateYear(ym.year));
    }
  }

  /**
   * The next month's grid starts as many weekdays later as this month has
   * days, except after December of year -1, where the next month is January
   * of year 0, which the grid lays out as January 1900 (`GridJumpAtYearZero`).
   */
  lemma NextGridStart(ym: YearMonth)
    requires ValidMonth(ym)
    ensures ym != YearMonth(-1, 11) ==>
      GetDaysInMonth(NextMonth(ym)).startingDayOfWeek ==
      (GetDaysInMonth(ym).startingDayOfWeek + GetDaysInMonth(ym).daysInMonth) % 7
  {
    if ym != YearMonth(-1, 11) {
      NextMonthFollows(ym);
      NextMonthSteps(ym);
      var next := NextMonth(ym);
      assert DateYear(next.year) == next.year;
      GridStartShift(DateYear(ym.year), ym.month, next.year, next.month);
    }
  }

  /** A month that starts the day after another ends starts as many weekdays later as the other has days. */
  lemma GridStartShift(year: int, month: int, nextYear: int, nextMonth: int)
    requires DayNumber(nextYear, nextMonth, 1) == DayNumber(year, month, DaysInMonth(year, month)) + 1
    ensures Weekday(nextYear, nextMonth, 1) == (Weekday(year, month, 1) + DaysInMonth(year, month)) % 7
  {
    var first := DayNumber(year, month, 1);
    var n := DaysInMonth(year, month);
    assert DayNumber(nextYear, nextMonth, 1) == first + n;
    ModSevenShift(first + 1, n);
  }

  /** After December of year -1 the grid jumps: January of year 0 is laid out as January 1900, a Monday. */
  lemma GridJumpAtYearZero()
    ensures NextMonth(YearMonth(-1, 11)) == YearMonth(0, 0)
    ensures GetDaysInMonth(YearMonth(-1, 11)) == MonthGrid(31, 3, -1, 11)
    ensures GetDaysInMonth(YearMonth(0, 0)).startingDayOfWeek == 1 != (3 + 31) % 7
  {
  }

  /** Consecutive days have consecutive weekdays. */
  lemma {:induction false} WeekdayNextDay(year: int, month: int, day: int)
    ensures Weekday(year, month, day + 1) == (Weekday(year, month, day) + 1) % 7
  {
    ModSevenShift(DayNumber(year, month, day) + 1, 1);
  }

  /**
   * Known dates: 1 January 1970 and 1 January 2026 were Thursdays; 1 December
   * 1999 was a Wednesday, and the grid of December of year 99 starts there.
   */
  lemma WeekdayAnchors()
    ensures Weekday(1970, 0, 1) == 4 && Weekday(2026, 0, 1) == 4
    ensures Weekday(1999, 11, 1) == 3
    ensures GetDaysInMonth(YearMonth(99, 11)) == MonthGrid(31, 3, 99, 11)
  {
  }

  lemma ModSevenShift(a: int, n: int)
    ensures (a + n) % 7 == (a % 7 + n) % 7
  {
    var q := a / 7;
    assert a == 7 * q + a % 7;
  }

  /** The day of `date` is `day` of the displayed month. */
  function OnDay(ym: YearMonth, day: int): CalendarEvent -> bool
  {
    (e: CalendarEvent) => e.date.day == day && e.date.month == ym.month && e.date.year == ym.year
  }

  /** `getEventsForDate` (AOTCalendar.tsx:102-109). */
  function EventsForDate(events: seq<CalendarEvent>, ym: YearMonth, day: int): (r: seq<CalendarEvent>)
    ensures forall e :: e in r <==> e in events && e.date.day == day && e.date.month == ym.month && e.date.year == ym.year
    ensures IsSubsequence(r, events)
  {
    FilterIsSubsequence(events, OnDay(ym, day));
    Filter(events, OnDay(ym, day))
  }

  /** `currentUser?.isRepresentative || false` (AOTCalendar.tsx:85). */
  predicate IsRepresentative(user: Option<User>)
  {
    user.Some? && user.value.isRepresentative == Some(true)
  }

  /** `canDelete` (AOTCalendar.tsx:146). */
  predicate CanDelete(user: Option<User>, event: CalendarEvent)
  {
    IsRepresentative(user) || (user.Some? && event.createdBy == user.value.name) || event.createdBy == "Admin"
  }

  /** Without a signed-in user only the events created by "Admin" can be deleted. */
  lemma AnonymousDeletesOnlyAdminEvents(event: CalendarEvent)
    ensures CanDelete(None, event) <==> event.createdBy == "Admin"
  {
  }

  /**
   * The dialog shows its delete button only to a representative or to the
   * event's creator (AOTCalendar.tsx:496); `canDelete` also admits "Admin" events.
   */
  predicate ShowsDeleteButton(user: Option<User>, event: CalendarEvent)
  {
    IsRepresentative(user) || (user.Some? && event.createdBy == user.value.name)
  }

  /**
   * The button and the handler's check differ in one case only: an "Admin"
   * event shown to someone who is neither a representative nor named "Admin".
   * The handler would delete it, but no button reaches the handler there.
   */
  lemma DeleteButtonNarrowerThanCanDelete(user: Option<User>, event: CalendarEvent)
    ensures ShowsDeleteButton(user, event) ==> CanDelete(user, event)
    ensures CanDelete(user, event) && !ShowsDeleteButton(user, event) <==>
      event.createdBy == "Admin" && !IsRepresentative(user) && !(user.Some? && user.value.name == "Admin")
  {
  }

  /** A signed-in student who is not a representative: the handler admits an "Admin" event, the dialog offers no button. */
  lemma StudentSeesNoButtonForAdminEvent(event: CalendarEvent)
    requires event.createdBy == "Admin"
    ensures var student := Some(User("u1", "Riya", "riya@aot.edu.in", "AOT", None, None, None, None, None, Some(false)));
      CanDelete(student, event) && !ShowsDeleteButton(student, event)
  {
  }

  /** The events a first load seeds when storage holds none (AOTCalendar.tsx:44-72), created at `now`. */
  function SampleEvents(now: Timestamp): seq<CalendarEvent>
  {
    [ CalendarEvent("1", "Mid-Semester Exams", "Mid-semester examinations for all departments",
        LocalDateTime(2026, 0, 20, 0), Academic, "Admin", now),
      CalendarEvent("2", "Tech Fest 2026", "Annual technical festival with coding competitions and workshops",
        LocalDateTime(2026, 1, 15, 0), Technical, "Admin", now),
      CalendarEvent("3", "Republic Day Celebration", "Republic Day celebration at AOT campus",
        LocalDateTime(2026, 0, 26, 0), Holiday, "Admin", now) ]
  }

  /**
   * Every sample event passes `canDelete` for any user, signed in or not,
   * yet its delete button shows only to a representative or to a user named "Admin".
   */
  lemma SampleEventsDeletableWithoutButton(now: Timestamp, user: Option<User>)
    ensures forall e :: e in SampleEvents(now) ==> CanDelete(user, e)
    ensures forall e :: e in SampleEvents(now) ==>
      (ShowsDeleteButton(user, e) <==> IsRepresentative(user) || (user.Some? && user.value.name == "Admin"))
  {
  }

  function HasOtherId(id: string): CalendarEvent -> bool
  {
    (e: CalendarEvent) => e.id != id
  }

  /** Milliseconds of local time from 1 January of year 1 to the event's date. */
  function Instant(d: LocalDateTime): int
  {
    DayNumber(d.year, d.month, d.day) * MsPerDay + d.msOfDay
  }

  /** `today.setHours(0, 0, 0, 0)`. */
  function StartOfDay(now: LocalDateTime): int
  {
    DayNumber(now.year, now.month, now.day) * MsPerDay
  }

  function NotBefore(start: int): CalendarEvent -> bool
  {
    (e: CalendarEvent) => Instant(e.date) >= start
  }

  /** The sort key of `upcomingEvents`: `new Date(e.date).getTime()`. */
  function DateKey(): CalendarEvent -> int
  {
    (e: CalendarEvent) => Instant(e.date)
  }

  function Min(a: int, b: int): int
  {
    if a <= b then a else b
  }

  /** The events dated on or after the start of today. */
  function Candidates(events: seq<CalendarEvent>, now: LocalDateTime): (r: seq<CalendarEvent>)
    ensures forall e :: e in r <==> e in events && Instant(e.date) >= StartOfDay(now)
  {
    Filter(events, NotBefore(StartOfDay(now)))
  }

  /** `upcomingEvents` (AOTCalendar.tsx:158-165): the candidates sorted by date, at most five of them. */
  function UpcomingEvents(events: seq<CalendarEvent>, now: LocalDateTime): (r: seq<CalendarEvent>)
    ensures |r| <= 5
    ensures forall e :: e in r ==> e in events && Instant(e.date) >= StartOfDay(now)
  {
    var candidates := Candidates(events, now);
    SmallestByIsSmallest(candidates, 5, DateKey());
    var r := SmallestBy(candidates, 5, DateKey());
    assert forall e :: e in r ==> e in multiset(candidates);
    r
  }

  /** The upcoming list has five entries, or every candidate when there are fewer, and is in date order. */
  lemma UpcomingEventsSorted(events: seq<CalendarEvent>, now: LocalDateTime)
    ensures var r := UpcomingEvents(events, now);
      && |r| == Min(5, |Candidates(events, now)|)
      && multiset(r) <= multiset(Candidates(events, now))
      && forall i, j :: 0 <= i < j < |r| ==> Instant(r[i].date) <= Instant(r[j].date)
  {
    SmallestByIsSmallest(Candidates(events, now), 5, DateKey());
  }

  /** No candidate left out of the upcoming list is dated before any event in it. */
  lemma UpcomingEventsEarliest(events: seq<CalendarEvent>, now: LocalDateTime)
    ensures var r := UpcomingEvents(events, now);
      forall x, e :: x in r && e in multiset(Candidates(events, now)) - multiset(r) ==> Instant(x.date) <= Instant(e.date)
  {
    SmallestByIsSmallest(Candidates(events, now), 5, DateKey());
  }

  /** The calendar page: the displayed month, the events and the open dialogs. */
  class Calendar {
    var current: YearMonth
    var events: seq<CalendarEvent>
    var selectedEvent: Option<CalendarEvent>
    var isCreateModalOpen: bool
    var draftTitle: string
    var draftDescription: string
    var draftDate: string
    var draftType: EventType

    ghost predicate Valid()
      reads this
    {
      ValidMonth(current)
    }

    /**
     * The calendar after its load effect: `initial` is what that effect set,
     * either the list restored from storage or, on a first load, the sample list.
     */
    constructor (today: YearMonth, initial: seq<CalendarEvent>)
      requires ValidMonth(today)
      ensures Valid() && current == today && events == initial && selectedEvent == None && !isCreateModalOpen
      ensures draftTitle == "" && draftDescription == "" && draftDate == "" && draftType == Academic
    {
      current := today;
      events := initial;
      selectedEvent := None;
      isCreateModalOpen := false;
      draftTitle, draftDescription, draftDate := "", "", "";
      draftType := Academic;
    }

    method GoToPrevMonth()
      requires Valid()
      modifies this`current
      ensures Valid() && current == PrevMonth(old(current))
    {
      current := MonthOf(current.year, current.month - 1);
    }

    method GoToNextMonth()
      requires Valid()
      modifies this`current
      ensures Valid() && current == NextMonth(old(current))
    {
      current := MonthOf(current.year, current.month + 1);
    }

    /**
     * `handleCreateEvent` (AOTCalendar.tsx:119-143). `date` is the parse of
     * the draft's date text, `id` the random id and `now` the clock; the
     * returned text is the alert shown, if any.
     */
    method CreateEvent(user: Option<User>, id: string, date: LocalDateTime, now: Timestamp) returns (alert: Option<string>)
      requires Valid()
      modifies this
      ensures Valid() && current == old(current) && selectedEvent == old(selectedEvent)
      ensures user.None? ==>
        alert == Some("Please login to create events") && events == old(events)
        && isCreateModalOpen == old(isCreateModalOpen) && draftTitle == old(draftTitle) && draftDate == old(draftDate)
        && draftDescription == old(draftDescription) && draftType == old(draftType)
      ensures user.Some? && (old(draftTitle) == "" || old(draftDate) == "") ==>
        alert == Some("Please fill in all required fields") && events == old(events)
        && isCreateModalOpen == old(isCreateModalOpen) && draftTitle == old(draftTitle) && draftDate == old(draftDate)
        && draftDescription == old(draftDescription) && draftType == old(draftType)
      ensures user.Some? && old(draftTitle) != "" && old(draftDate) != "" ==>
        && alert == None
        && events == old(events) + [CalendarEvent(id, old(draftTitle), old(draftDescription), date, old(draftType), user.value.name, now)]
        && !isCreateModalOpen
        && draftTitle == "" && draftDescription == "" && draftDate == "" && draftType == Academic
    {
      if user.None? {
        return Some("Please login to create events");
      }
      if draftTitle == "" || draftDate == "" {
        return Some("Please fill in all required fields");
      }
      var event := CalendarEvent(id, draftTitle, draftDescription, date, draftType, user.value.name, now);
      events := events + [event];
      isCreateModalOpen := false;
      draftTitle, draftDescription, draftDate := "", "", "";
      draftType := Academic;
      alert := None;
    }

    /** `handleDeleteEvent` (AOTCalendar.tsx:145-156); `confirmed` is the answer to the confirmation prompt. */
    method DeleteEvent(user: Option<User>, event: CalendarEvent, confirmed: bool) returns (alert: Option<string>)
      requires Valid()
      modifies this`events, this`selectedEvent
      ensures Valid()
      ensures !CanDelete(user, event) ==>
        alert == Some("You can only delete your own events or if you are a representative.")
        && events == old(events) && selectedEvent == old(selectedEvent)
      ensures CanDelete(user, event) ==> alert == None
      ensures CanDelete(user, event) && !confirmed ==> events == old(events) && selectedEvent == old(selectedEvent)
      ensures CanDelete(user, event) && confirmed ==>
        && events == Filter(old(events), HasOtherId(event.id))
        && (forall e :: e in events <==> e in old(events) && e.id != event.id)
        && selectedEvent == None
    {
      if !CanDelete(user, event) {
        return Some("You can only delete your own events or if you are a representative.");
      }
      alert := None;
      if confirmed {
        events := Filter(events, HasOtherId(event.id));
        selectedEvent := None;
      }
    }
  }
}
