/** The calendar arithmetic the parser relies on: the range checks of the DateTime
    constructor, the 12-hour clock of message headers and the English month names. */
module Clock {
  import opened Wrappers

  /** A DateTime value, field by field, to the second. */
  datatype DateTime = DateTime(year: int, month: int, day: int, hour: int, minute: int, second: int)

  /** default(DateTime), which records that carry no time hold: 0001-01-01 00:00:00. */
  const MinValue := DateTime(1, 1, 1, 0, 0, 0)

  predicate IsLeapYear(year: int) {
    year % 4 == 0 && (year % 100 != 0 || year % 400 == 0)
  }

  function DaysInMonth(year: int, month: int): (d: int)
    requires 1 <= month <= 12
    ensures 28 <= d <= 31
    ensures d == 29 <==> month == 2 && IsLeapYear(year)
  {
    if month == 2 then (if IsLeapYear(year) then 29 else 28)
    else if month == 4 || month == 6 || month == 9 || month == 11 then 30
    else 31
  }

  /** The arguments new DateTime(year, month, day, hour, minute, second) accepts. */
  predicate IsValid(t: DateTime) {
    1 <= t.year <= 9999 && 1 <= t.month <= 12 && 1 <= t.day <= DaysInMonth(t.year, t.month)
    && 0 <= t.hour <= 23 && 0 <= t.minute <= 59 && 0 <= t.second <= 59
  }

  /** new DateTime(...): the value, or None where the constructor throws
      ArgumentOutOfRangeException. */
  function NewDateTime(year: int, month: int, day: int, hour: int, minute: int, second: int): (r: Option<DateTime>)
    ensures r.Some? <==> IsValid(DateTime(year, month, day, hour, minute, second))
    ensures r.Some? ==> r.value == DateTime(year, month, day, hour, minute, second)
  {
    var t := DateTime(year, month, day, hour, minute, second);
    if IsValid(t) then Some(t) else None
  }

  /** Before any date header the running date is (0, 0, 0), which no DateTime accepts. */
  lemma ZeroDateIsInvalid(hour: int, minute: int, second: int)
    ensures NewDateTime(0, 0, 0, hour, minute, second) == None
  {
  }

  /** The meridiem marker that moves an hour into the afternoon. */
  const Afternoon := "오후"
  /** The morning marker of the same export format. */
  const Morning := "오전"

  /** The 12-hour to 24-hour conversion of message headers: an afternoon hour other than
      12 gains 12; under any other marker 12 becomes 0; every other hour is kept. */
  function Hour24(meridiem: string, hour: int): (h: int)
    ensures meridiem == Afternoon && hour != 12 ==> h == hour + 12
    ensures meridiem != Afternoon && hour == 12 ==> h == 0
    ensures (meridiem == Afternoon) == (hour == 12) ==> h == hour
  {
    if meridiem == Afternoon then
      if hour != 12 then hour + 12 else hour
    else if hour == 12 then 0
    else hour
  }

  /** On clock hours 1..12 the conversion lands on 0..23: afternoon hours at 12 or later,
      morning hours before 12. */
  lemma Hour24Range(meridiem: string, hour: int)
    requires 1 <= hour <= 12
    ensures 0 <= Hour24(meridiem, hour) <= 23
    ensures meridiem == Afternoon <==> Hour24(meridiem, hour) >= 12
  {
  }

  /** The marker a 24-hour clock hour is written with. */
  function MeridiemOf(h: int): string {
    if h >= 12 then Afternoon else Morning
  }

  /** The 12-hour clock reading of a 24-hour clock hour. */
  function Hour12Of(h: int): int {
    if h % 12 == 0 then 12 else h % 12
  }

  /** Every hour of the day is reached from exactly one (marker, clock hour) reading. */
  lemma Hour24RoundTrip(h: int)
    requires 0 <= h <= 23
    ensures Hour24(MeridiemOf(h), Hour12Of(h)) == h
  {
  }

  lemma Hour12RoundTrip(meridiem: string, hour: int)
    requires meridiem == Afternoon || meridiem == Morning
    requires 1 <= hour <= 12
    ensures MeridiemOf(Hour24(meridiem, hour)) == meridiem
    ensures Hour12Of(Hour24(meridiem, hour)) == hour
  {
  }

  /** The month_eng table. */
  const MonthEng: map<string, int> := map[
    "January" := 1, "February" := 2, "March" := 3, "April" := 4,
    "May" := 5, "June" := 6, "July" := 7, "August" := 8,
    "September" := 9, "October" := 10, "November" := 11, "December" := 12]

  /** The month names in calendar order. */
  const MonthNames: seq<string> := ["January", "February", "March", "April", "May", "June",
    "July", "August", "September", "October", "November", "December"]

  /** month_eng[name]: the number of a month name, None where the lookup throws
      KeyNotFoundException. */
  function MonthNumber(name: string): (r: Option<int>)
    ensures r.Some? <==> name in MonthNames
    ensures r.Some? ==> 1 <= r.value <= 12 && MonthNames[r.value - 1] == name
  {
    if name in MonthEng then Some(MonthEng[name]) else None
  }

  /** The table names every month once and only the twelve month names. */
  lemma MonthNumberOfName(m: int)
    requires 1 <= m <= 12
    ensures MonthNumber(MonthNames[m - 1]) == Some(m)
  {
  }
}
