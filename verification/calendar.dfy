/** Calendar dates as integer triples, and what `new Date(string)` makes of a
    date-only string. Time of day and time zones are not modelled: a parsed
    date stands for that day in the host's zone, which is exact on a host at
    UTC+0. */
module Calendar {
  import opened JsText
  import opened JsNumber

  /** A (proleptic Gregorian) calendar date; `month` is 1-based. */
  datatype Date = Date(year: int, month: int, day: int)

  predicate IsLeapYear(y: int) {
    y % 4 == 0 && (y % 100 != 0 || y % 400 == 0)
  }

  function DaysInMonth(y: int, m: int): (n: int)
    requires 1 <= m <= 12
    ensures 28 <= n <= 31
  {
    if m == 2 then (if IsLeapYear(y) then 29 else 28)
    else if m == 4 || m == 6 || m == 9 || m == 11 then 30
    else 31
  }

  predicate IsValid(d: Date) {
    1 <= d.month <= 12 && 1 <= d.day <= DaysInMonth(d.year, d.month)
  }

  /** Strict chronological order of dates. */
  predicate Before(a: Date, b: Date) {
    || a.year < b.year
    || (a.year == b.year && a.month < b.month)
    || (a.year == b.year && a.month == b.month && a.day < b.day)
  }

  /** The day after `d`: a later valid date with no valid date in between. */
  function NextDay(d: Date): (r: Date)
    requires IsValid(d)
    ensures IsValid(r) && Before(d, r)
    ensures forall e :: IsValid(e) && Before(d, e) ==> e == r || Before(r, e)
  {
    if d.day < DaysInMonth(d.year, d.month) then d.(day := d.day + 1)
    else if d.month < 12 then Date(d.year, d.month + 1, 1)
    else Date(d.year + 1, 1, 1)
  }

  /** Day `day` (1..31) of `month`, where days past the end of a short month
      roll over into the next month, as the date arithmetic of ECMA-262
      (MakeDay, section 21.4.1.28) does: `2025-02-30` is 2 March 2025. */
  function RollOver(year: int, month: int, day: int): (d: Date)
    requires 1 <= month <= 12 && 1 <= day <= 31
    ensures IsValid(d)
    ensures day <= DaysInMonth(year, month) <==> d == Date(year, month, day)
    ensures day > DaysInMonth(year, month) ==> d == Date(year, month + 1, day - DaysInMonth(year, month))
  {
    if day <= DaysInMonth(year, month) then Date(year, month, day)
    else Date(year, month + 1, day - DaysInMonth(year, month))
  }

  /** A JavaScript `Date` object: a point in time or the invalid date. */
  datatype JsDate = Invalid | At(date: Date)

  /** `YYYY-MM-DD` with every letter a decimal digit. */
  predicate IsDateOnlyShape(s: string) {
    && |s| == 10 && s[4] == '-' && s[7] == '-'
    && AllRadixDigits(s[..4], 10) && AllRadixDigits(s[5..7], 10) && AllRadixDigits(s[8..], 10)
  }

  /** `new Date(s)` for the date-only form `YYYY-MM-DD` of the date time string
      format (section 21.4.1.32 of ECMA-262): month 01..12 and day 01..31 are
      legal, a day past the end of the month rolls over, and any other string
      is the invalid date. */
  function ParseDateOnly(s: string): (r: JsDate)
    ensures r.At? ==> IsValid(r.date)
    ensures r.At? <==>
      && IsDateOnlyShape(s)
      && 1 <= DigitsValue(s[5..7], 10) <= 12 && 1 <= DigitsValue(s[8..], 10) <= 31
    ensures r.At? ==>
      var y, m, d := DigitsValue(s[..4], 10), DigitsValue(s[5..7], 10), DigitsValue(s[8..], 10);
      && (d <= DaysInMonth(y, m) ==> r.date == Date(y, m, d))
      && (d > DaysInMonth(y, m) ==> r.date == Date(y, m + 1, d - DaysInMonth(y, m)))
  {
    if IsDateOnlyShape(s) then
      var y := DigitsValue(s[..4], 10);
      var m := DigitsValue(s[5..7], 10);
      var d := DigitsValue(s[8..], 10);
      if 1 <= m <= 12 && 1 <= d <= 31 then At(RollOver(y, m, d)) else Invalid
    else Invalid
  }

  /** `Date.prototype.getMonth`: the month counted from 0. */
  function GetMonth(d: Date): int {
    d.month - 1
  }

  /** A date lies before `t` exactly when the day after it is `t` or lies
      before `t`. */
  lemma BeforeViaNextDay(a: Date, t: Date)
    requires IsValid(a) && IsValid(t)
    ensures Before(a, t) <==> NextDay(a) == t || Before(NextDay(a), t)
  {
  }
}
