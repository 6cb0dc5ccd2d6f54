/** Date helpers of backend/pdfHandler.js: `toDDMMYYYY` and `calcIsMinor`.
    A date is the (year, month, day) triple that a JavaScript `Date` shows
    through `getFullYear`, `getMonth() + 1` and `getDate()`; parsing a date
    string is done by the JavaScript runtime and is a parameter here: it
    yields `None` where `isNaN(new Date(x))` holds. The current date is a
    parameter too. */
module Dates {
  import opened Wrappers
  import opened Strings

  datatype Date = Date(year: int, month: int, day: int)

  predicate IsLeapYear(y: int) {
    (y % 4 == 0 && y % 100 != 0) || y % 400 == 0
  }

  function DaysInMonth(y: int, m: int): int {
    if m == 2 then (if IsLeapYear(y) then 29 else 28)
    else if m == 4 || m == 6 || m == 9 || m == 11 then 30
    else 31
  }

  /** A day of the proleptic Gregorian calendar, as a JavaScript `Date` has. */
  predicate ValidDate(d: Date) {
    1 <= d.month <= 12 && 1 <= d.day <= DaysInMonth(d.year, d.month)
  }

  type CalendarDate = d: Date | ValidDate(d) witness Date(1970, 1, 1)

  /** The wall clock's date; its year is not negative. */
  type Today = d: CalendarDate | d.year >= 0 witness Date(1970, 1, 1)

  /** Chronological order of (year, month, day) triples. */
  predicate LexLeq(a: Date, b: Date) {
    a.year < b.year || (a.year == b.year && (a.month < b.month || (a.month == b.month && a.day <= b.day)))
  }

  predicate LexLess(a: Date, b: Date) {
    LexLeq(a, b) && a != b
  }

  /* ---- toDDMMYYYY ---- */

  /** `String(n).padStart(2, '0')` */
  function Pad2(n: nat): string {
    PadStart(NatToString(n), 2, '0')
  }

  lemma Pad2Value(n: nat)
    requires 1 <= n <= 31
    ensures |Pad2(n)| == 2 && AllDigits(Pad2(n)) && ParseNat(Pad2(n)) == n
  {
    var s := NatToString(n);
    ParseNatToString(n);
    NatToStringShape(n);
    if n < 10 {
      assert Pad2(n) == ['0'] + s;
      assert Pad2(n)[..1] == ['0'];
    }
  }

  /** `toDDMMYYYY(d)`: "DD/MM/YYYY" for a valid date, "" for an invalid one. */
  function ToDDMMYYYY(d: Option<CalendarDate>): (r: string)
    ensures d.None? <==> r == ""
  {
    match d
    case None => ""
    case Some(dt) => Pad2(dt.day) + "/" + Pad2(dt.month) + "/" + IntToString(dt.year)
  }

  /** Reads a "DD/MM/YYYY" string back; the year may carry a minus sign. */
  function ParseDDMMYYYY(s: string): Option<CalendarDate> {
    if |s| < 7 || s[2] != '/' || s[5] != '/' || !AllDigits(s[..2]) || !AllDigits(s[3..5]) then None
    else
      match ParseYear(s[6..])
      case None => None
      case Some(y) =>
        var d := Date(y, ParseNat(s[3..5]), ParseNat(s[..2]));
        if ValidDate(d) then Some(d) else None
  }

  /** The year field: optional minus sign, then digits. */
  function ParseYear(ys: string): Option<int> {
    if ys != [] && ys[0] == '-' then
      (if |ys| >= 2 && AllDigits(ys[1..]) then Some(-(ParseNat(ys[1..]) as int)) else None)
    else if ys != [] && AllDigits(ys) then Some(ParseNat(ys) as int)
    else None
  }

  lemma YearRoundTrip(y: int)
    ensures ParseYear(IntToString(y)) == Some(y)
  {
    var ys := IntToString(y);
    if y < 0 {
      var digits := NatToString(-y);
      assert ys == "-" + digits;
      assert ys[1..] == digits;
      ParseNatToString(-y);
    } else {
      assert IsDigit(ys[0]);
      ParseNatToString(y);
    }
  }

  /** The three fields of "DD/MM/rest" sit at fixed positions. */
  lemma FieldPositions(a: string, b: string, c: string)
    requires |a| == 2 && |b| == 2
    ensures var s := a + "/" + b + "/" + c;
      |s| == 6 + |c| && s[2] == '/' && s[5] == '/' && s[..2] == a && s[3..5] == b && s[6..] == c
  {
  }

  /** Formatting a valid date and reading it back gives the same date. */
  lemma FormatParseRoundTrip(d: CalendarDate)
    ensures ParseDDMMYYYY(ToDDMMYYYY(Some(d))) == Some(d)
  {
    var s := ToDDMMYYYY(Some(d));
    Pad2Value(d.day);
    Pad2Value(d.month);
    YearRoundTrip(d.year);
    FieldPositions(Pad2(d.day), Pad2(d.month), IntToString(d.year));
    assert s == Pad2(d.day) + "/" + Pad2(d.month) + "/" + IntToString(d.year);
  }

  /** Formatting is idempotent through the text form. */
  lemma FormatIdempotent(d: CalendarDate)
    ensures ToDDMMYYYY(ParseDDMMYYYY(ToDDMMYYYY(Some(d)))) == ToDDMMYYYY(Some(d))
  {
    FormatParseRoundTrip(d);
  }

  /* ---- calcIsMinor ---- */

  /** Age in whole years: the difference of the years, less one when the
      birthday has not yet come this year. */
  function AgeOn(dob: Date, now: Date): int {
    var age := now.year - dob.year;
    var m := now.month - dob.month;
    if m < 0 || (m == 0 && now.day < dob.day) then age - 1 else age
  }

  /** The age is at least `k` exactly when the `k`-th birthday is on or before `now`. */
  lemma AgeAtLeast(dob: Date, now: Date, k: int)
    ensures AgeOn(dob, now) >= k <==> LexLeq(Date(dob.year + k, dob.month, dob.day), now)
  {
  }

  /** The date on which a person born on `dob` turns 18. */
  function EighteenthBirthday(dob: Date): Date {
    Date(dob.year + 18, dob.month, dob.day)
  }

  /** `calcIsMinor(dob)`: younger than 18 on `now`; an invalid date of birth is not a minor. */
  function IsMinor(dob: Option<CalendarDate>, now: CalendarDate): (minor: bool)
    ensures minor <==> dob.Some? && LexLess(now, EighteenthBirthday(dob.value))
  {
    match dob
    case None => false
    case Some(d) =>
      AgeAtLeast(d, now, 18);
      AgeOn(d, now) < 18
  }

  /** The calendar day before `d`. */
  function PrevDay(d: CalendarDate): CalendarDate {
    if d.day > 1 then Date(d.year, d.month, d.day - 1)
    else if d.month > 1 then Date(d.year, d.month - 1, DaysInMonth(d.year, d.month - 1))
    else Date(d.year - 1, 12, 31)
  }

  /** `PrevDay(d)` comes before `d`, and no valid date lies between them. */
  lemma PrevDayIsPredecessor(d: CalendarDate, e: CalendarDate)
    ensures LexLess(PrevDay(d), d)
    ensures LexLess(e, d) ==> LexLeq(e, PrevDay(d))
  {
  }

  /** On the 18th birthday and every day after, the guest is not a minor. */
  lemma NotMinorFromEighteenthBirthday(dob: CalendarDate, now: CalendarDate)
    requires LexLeq(EighteenthBirthday(dob), now)
    ensures !IsMinor(Some(dob), now)
  {
  }

  /** On the day before the 18th birthday the guest is a minor. */
  lemma MinorOnDayBeforeEighteenthBirthday(dob: CalendarDate)
    requires ValidDate(EighteenthBirthday(dob))
    ensures IsMinor(Some(dob), PrevDay(EighteenthBirthday(dob)))
  {
    PrevDayIsPredecessor(EighteenthBirthday(dob), EighteenthBirthday(dob));
  }

  lemma AllDigitsConcat(a: string, b: string)
    requires AllDigits(a) && AllDigits(b)
    ensures AllDigits(a + b)
  {
  }

  /** `format(date, 'dd/MM/yyyy')` of date-fns: the year padded to four digits. */
  function DdMMyyyy(d: Today): string {
    Pad2(d.day) + "/" + Pad2(d.month) + "/" + PadStart(NatToString(d.year), 4, '0')
  }

  lemma FourDigits(y: nat)
    requires y >= 1000
    ensures |NatToString(y)| >= 4
  {
    var a := y / 10;
    var b := a / 10;
    var c := b / 10;
    assert |NatToString(y)| == |NatToString(a)| + 1;
    assert |NatToString(a)| == |NatToString(b)| + 1;
    assert |NatToString(b)| == |NatToString(c)| + 1;
  }

  /** From the year 1000 on, the cover sheet's date is the text `toDDMMYYYY`
      makes, so it reads back as the same day. */
  lemma DdMMyyyyAgrees(d: Today)
    requires d.year >= 1000
    ensures DdMMyyyy(d) == ToDDMMYYYY(Some(d))
    ensures ParseDDMMYYYY(DdMMyyyy(d)) == Some(d)
  {
    FourDigits(d.year);
    FormatParseRoundTrip(d);
  }

  /** `format(date, 'yyyyMMdd')` of date-fns. */
  function YyyyMMdd(d: Today): (r: string)
    ensures |r| >= 8 && AllDigits(r)
  {
    var y := PadStart(NatToString(d.year), 4, '0');
    PadStartDigits(NatToString(d.year), 4);
    DateDigits(y, d.month, d.day);
    y + Pad2(d.month) + Pad2(d.day)
  }

  /** The filename date reads as the year padded to four digits, then the
      month and the day, each as two digits. */
  lemma YyyyMMddFields(d: Today)
    ensures var r := YyyyMMdd(d);
      r[..|r| - 4] == PadStart(NatToString(d.year), 4, '0')
      && |r[|r| - 4..|r| - 2]| == 2 && ParseNat(r[|r| - 4..|r| - 2]) == d.month
      && |r[|r| - 2..]| == 2 && ParseNat(r[|r| - 2..]) == d.day
  {
    var y := PadStart(NatToString(d.year), 4, '0');
    var r := YyyyMMdd(d);
    Pad2Value(d.month);
    Pad2Value(d.day);
    assert r == y + Pad2(d.month) + Pad2(d.day);
    assert r[..|r| - 4] == y;
    assert r[|r| - 4..|r| - 2] == Pad2(d.month);
    assert r[|r| - 2..] == Pad2(d.day);
  }

  lemma DateDigits(y: string, month: nat, day: nat)
    requires |y| >= 4 && AllDigits(y)
    requires 1 <= month <= 12 && 1 <= day <= 31
    ensures |y + Pad2(month) + Pad2(day)| >= 8 && AllDigits(y + Pad2(month) + Pad2(day))
  {
    Pad2Value(month);
    Pad2Value(day);
    AllDigitsConcat(y, Pad2(month));
    AllDigitsConcat(y + Pad2(month), Pad2(day));
  }
}
