/**
  Day numbers and civil dates as section 21.4.1 of ECMA-262 computes them, and what setting a
  date's UTC fields and reading them back tells about the values that were set.
*/
module Calendar {

  // ---- the arithmetic of ECMA-262 ----

  function DayFromYear(y: int): int {
    365 * (y - 1970) + (y - 1969) / 4 - (y - 1901) / 100 + (y - 1601) / 400
  }

  predicate Leap(y: int) {
    (y % 4 == 0 && y % 100 != 0) || y % 400 == 0
  }

  function LeapDay(y: int): int { if Leap(y) then 1 else 0 }

  /** Days of the year before month m, counted from 0. */
  function DaysBefore(y: int, m: int): int
    requires 0 <= m <= 12
  {
    var l := LeapDay(y);
    match m
    case 0 => 0
    case 1 => 31
    case 2 => 59 + l
    case 3 => 90 + l
    case 4 => 120 + l
    case 5 => 151 + l
    case 6 => 181 + l
    case 7 => 212 + l
    case 8 => 243 + l
    case 9 => 273 + l
    case 10 => 304 + l
    case 11 => 334 + l
    case _ => 365 + l
  }

  /** Months beyond the year carry into it; the day of the month is just added. */
  function MakeDay(year: int, month: int, date: int): int {
    var y := year + month / 12;
    DayFromYear(y) + DaysBefore(y, month % 12) + date - 1
  }

  /** The largest y whose first day is no later than d, searched upward. */
  function YearUp(d: int, y: int): (r: int)
    requires DayFromYear(y) <= d
    ensures DayFromYear(r) <= d < DayFromYear(r + 1)
    decreases d - DayFromYear(y)
  {
    YearLength(y);
    if DayFromYear(y + 1) <= d then YearUp(d, y + 1) else y
  }

  function YearFromDay(d: int): (r: int)
    ensures DayFromYear(r) <= d < DayFromYear(r + 1)
  {
    var low := 1970 + (if d >= 0 then 0 else d / 365);
    LowYear(d);
    YearUp(d, low)
  }

  lemma LowYear(d: int)
    ensures DayFromYear(1970 + (if d >= 0 then 0 else d / 365)) <= d
  {
    if d < 0 {
      var k := d / 365;
      assert 365 * k <= d && k < 0;
    }
  }

  function MonthUp(y: int, day: int, m: int): (r: int)
    requires 0 <= m <= 11 && DaysBefore(y, m) <= day < 365 + LeapDay(y)
    ensures m <= r <= 11 && DaysBefore(y, r) <= day < DaysBefore(y, r + 1)
    decreases 12 - m
  {
    if m < 11 && DaysBefore(y, m + 1) <= day then MonthUp(y, day, m + 1) else m
  }

  datatype Civil = Civil(year: int, month: int, date: int)

  /** The year, month (0 to 11) and day of the month a day number falls on. */
  function CivilFromDay(d: int): (c: Civil)
    ensures 0 <= c.month <= 11
  {
    var y := YearFromDay(d);
    YearLength(y);
    var m := MonthUp(y, d - DayFromYear(y), 0);
    Civil(y, m, d - DayFromYear(y) - DaysBefore(y, m) + 1)
  }

  // ---- civil dates ----

  function DaysInMonth(y: int, m: int): int
    requires 0 <= m <= 11
  {
    if m == 1 then 28 + LeapDay(y) else if m in {3, 5, 8, 10} then 30 else 31
  }

  /** A day of the proleptic Gregorian calendar, months counted from 0. */
  predicate Valid(c: Civil) {
    0 <= c.month <= 11 && 1 <= c.date <= DaysInMonth(c.year, c.month)
  }

  /** A year has 365 days, or 366 when it is a leap year. */
  lemma YearLength(y: int)
    ensures DayFromYear(y + 1) - DayFromYear(y) == 365 + LeapDay(y)
  {
    Steps(y - 1969, 4);
    Steps(y - 1901, 100);
    Steps(y - 1601, 400);
    ShiftMod(y, 4, 492);
    ShiftMod(y, 100, 19);
    ShiftMod(y, 400, 4);
    Century(y);
  }

  lemma ShiftMod(y: int, k: int, j: int)
    requires k > 0
    ensures (y - j * k) % k == y % k
  {
    var q, r := y / k, y % k;
    assert y == q * k + r;
    assert y - j * k == (q - j) * k + r;
    Quotient(y - j * k, k, q - j, r);
  }

  lemma Century(y: int)
    ensures y % 400 == 0 ==> y % 100 == 0
    ensures y % 100 == 0 ==> y % 4 == 0
  {
    if y % 400 == 0 { Quotient(y, 100, y / 400 * 4, 0); }
    if y % 100 == 0 { Quotient(y, 4, y / 100 * 25, 0); }
  }

  /** A floor quotient steps exactly at multiples of the divisor. */
  lemma Steps(n: int, k: int)
    requires k > 1
    ensures (n + 1) / k - n / k == if (n + 1) % k == 0 then 1 else 0
  {
    var q, r := n / k, n % k;
    assert n == q * k + r;
    if r == k - 1 {
      assert n + 1 == (q + 1) * k;
      Quotient(n + 1, k, q + 1, 0);
    } else {
      Quotient(n + 1, k, q, r + 1);
    }
  }

  lemma Quotient(n: int, k: int, q: int, r: int)
    requires k > 0 && 0 <= r < k && n == q * k + r
    ensures n / k == q && n % k == r
  {
    var p, s := n / k, n % k;
    assert n == p * k + s;
    assert (p - q) * k == r - s;
    assert p - q >= 1 ==> (p - q) * k >= k;
    assert p - q <= -1 ==> (p - q) * k <= -k;
  }

  lemma MonthLength(y: int, m: int)
    requires 0 <= m <= 11
    ensures DaysBefore(y, m + 1) - DaysBefore(y, m) == DaysInMonth(y, m)
  {
  }

  lemma {:induction false} YearsGrow(y: int, z: int)
    requires y < z
    ensures DayFromYear(y + 1) <= DayFromYear(z)
    decreases z - y
  {
    if y + 1 < z {
      YearsGrow(y, z - 1);
      YearLength(z - 1);
    }
  }

  lemma {:induction false} MonthsGrow(y: int, m: int, n: int)
    requires 0 <= m < n <= 12
    ensures DaysBefore(y, m + 1) <= DaysBefore(y, n)
    decreases n - m
  {
    if m + 1 < n {
      MonthsGrow(y, m, n - 1);
      MonthLength(y, n - 1);
    }
  }

  /** Every day number is the number of exactly the valid date read off it. */
  lemma DayToCivilToDay(d: int)
    ensures Valid(CivilFromDay(d))
    ensures MakeDay(CivilFromDay(d).year, CivilFromDay(d).month, CivilFromDay(d).date) == d
  {
    hide DayFromYear, DaysInMonth, DaysBefore;
    var c := CivilFromDay(d);
    MonthLength(c.year, c.month);
    Quotient(c.month, 12, 0, c.month);
  }

  /** A valid date is read back from its own day number. */
  lemma CivilToDayToCivil(c: Civil)
    requires Valid(c)
    ensures CivilFromDay(MakeDay(c.year, c.month, c.date)) == c
  {
    hide DayFromYear, DaysInMonth, DaysBefore;
    Quotient(c.month, 12, 0, c.month);
    var d := MakeDay(c.year, c.month, c.date);
    MonthLength(c.year, c.month);
    YearLength(c.year);
    InYear(c.year, c.month);
    var y := YearFromDay(d);
    if y < c.year { YearsGrow(y, c.year); }
    if c.year < y { YearsGrow(c.year, y); }
    assert y == c.year;
    var m := CivilFromDay(d).month;
    if m < c.month { MonthsGrow(y, m, c.month); }
    if c.month < m { MonthsGrow(y, c.month, m); }
  }

  lemma InYear(y: int, m: int)
    requires 0 <= m <= 11
    ensures 0 <= DaysBefore(y, m) && DaysBefore(y, m + 1) <= 365 + LeapDay(y)
  {
  }

  /** Setting fields and reading them back changes nothing exactly for the dates that exist. */
  lemma ReadBackIffValid(c: Civil)
    ensures CivilFromDay(MakeDay(c.year, c.month, c.date)) == c <==> Valid(c)
  {
    hide MakeDay, CivilFromDay, Valid;
    DayToCivilToDay(MakeDay(c.year, c.month, c.date));
    if Valid(c) { CivilToDayToCivil(c); }
  }

  function NextDay(c: Civil): Civil
    requires Valid(c)
  {
    if c.date < DaysInMonth(c.year, c.month) then c.(date := c.date + 1)
    else if c.month < 11 then Civil(c.year, c.month + 1, 1)
    else Civil(c.year + 1, 0, 1)
  }

  lemma YearEdges(y: int)
    ensures DaysBefore(y, 0) == 0 && DaysBefore(y, 12) == 365 + LeapDay(y)
    ensures forall m :: 0 <= m <= 11 ==> DaysInMonth(y, m) >= 1
  {
  }

  lemma MakeDayInYear(c: Civil)
    requires 0 <= c.month <= 11
    ensures MakeDay(c.year, c.month, c.date) == DayFromYear(c.year) + DaysBefore(c.year, c.month) + c.date - 1
  {
    Quotient(c.month, 12, 0, c.month);
  }

  /** Day numbers count days: 0 is 1 January 1970 and each following date adds one. */
  lemma DaysAreCounted(c: Civil)
    requires Valid(c)
    ensures MakeDay(1970, 0, 1) == 0
    ensures Valid(NextDay(c))
    ensures MakeDay(NextDay(c).year, NextDay(c).month, NextDay(c).date) == MakeDay(c.year, c.month, c.date) + 1
  {
    hide DayFromYear, DaysBefore, DaysInMonth, MakeDay, LeapDay;
    Epoch();
    YearEdges(1970);
    MakeDayInYear(Civil(1970, 0, 1));
    YearLength(c.year);
    MonthLength(c.year, c.month);
    YearEdges(c.year);
    YearEdges(c.year + 1);
    MakeDayInYear(c);
    MakeDayInYear(NextDay(c));
  }

  lemma Epoch()
    ensures DayFromYear(1970) == 0
  {
  }
}

/** The Date object a check fills in, and the calendar checks built on it. */
module Dates {
  import opened Options
  import opened Calendar

  /** A Date: a day number and the time within the day, in milliseconds. */
  class UtcDate {
    var day: int
    var ms: int

    /** new Date(0) */
    constructor ()
      ensures day == 0 && ms == 0
    {
      day, ms := 0, 0;
    }

    method SetUTCFullYear(year: int, month: int, date: int)
      modifies this`day
      ensures day == MakeDay(year, month, date)
    {
      day := MakeDay(year, month, date);
    }

    method SetUTCHours(h: int, m: int, s: int, milli: int)
      requires 0 <= h <= 23 && 0 <= m <= 59 && 0 <= s <= 59 && 0 <= milli <= 999
      modifies this`ms
      ensures ms == ((h * 60 + m) * 60 + s) * 1000 + milli
    {
      ms := ((h * 60 + m) * 60 + s) * 1000 + milli;
    }

    function UTC(): (c: Civil)
      reads this
    {
      CivilFromDay(day)
    }
  }

  // ---- text ----

  predicate IsDigit(c: char) { '0' <= c <= '9' }

  predicate DigitsAt(s: string, i: nat, n: nat) {
    i + n <= |s| && forall k :: i <= k < i + n ==> IsDigit(s[k])
  }

  function Number(s: string, i: nat, n: nat): (v: nat)
    requires DigitsAt(s, i, n)
    decreases n
  {
    if n == 0 then 0 else Number(s, i, n - 1) * 10 + (s[i + n - 1] as int - '0' as int)
  }

  /** Four digits, a dash, two digits, a dash, two digits. */
  predicate DayShape(s: string) {
    && DigitsAt(s, 0, 4) && DigitsAt(s, 5, 2) && DigitsAt(s, 8, 2) && s[4] == '-' && s[7] == '-'
  }

  function DayOf(s: string): Civil
    requires DayShape(s)
  {
    Civil(Number(s, 0, 4), Number(s, 5, 2) - 1, Number(s, 8, 2))
  }

  predicate IsoDayShape(s: string) {
    DayShape(s) && |s| > 10 && (s[10] == 'T' || s[10] == ' ')
  }

  /** False exactly when the text spells out a calendar day that does not exist. */
  method IsoDayExists(iso: string) returns (r: bool)
    ensures r <==> !IsoDayShape(iso) || Valid(DayOf(iso))
  {
    hide MakeDay, CivilFromDay, Number, Valid;
    if !IsoDayShape(iso) { return true; }
    var year: int, month: int, day: int := Number(iso, 0, 4), Number(iso, 5, 2), Number(iso, 8, 2);
    var probe := new UtcDate();
    probe.SetUTCFullYear(year, month - 1, day);
    probe.SetUTCHours(0, 0, 0, 0);
    ReadBackIffValid(Civil(year, month - 1, day));
    r := probe.UTC() == Civil(year, month - 1, day);
  }

  predicate DateOnly(s: string) {
    |s| == 10 && DayShape(s)
  }

  /**
    The expiry instant in milliseconds, or none (NaN). parse stands for Date.parse, endOfDay for
    the last millisecond of a date-only value's local day, when that local day exists.
  */
  method ExpiresAtMs(iso: string, parse: string -> Option<int>, endOfDay: string -> Option<int>)
    returns (ms: Option<int>)
    ensures ms == if DateOnly(iso) then endOfDay(iso)
                  else if IsoDayShape(iso) && !Valid(DayOf(iso)) then None
                  else parse(iso)
  {
    if DateOnly(iso) { return endOfDay(iso); }
    var onCalendar := IsoDayExists(iso);
    ms := if onCalendar then parse(iso) else None;
  }

  // ---- RFC 3339 times ----

  /** White space and line terminators, which String.prototype.trim drops. */
  predicate IsJsSpace(c: char) {
    '\t' <= c <= '\r' || c == ' ' || c == '\U{A0}' || c == '\U{FEFF}' || c == '\U{1680}'
    || '\U{2000}' <= c <= '\U{200A}' || c == '\U{2028}' || c == '\U{2029}' || c == '\U{202F}'
    || c == '\U{205F}' || c == '\U{3000}'
  }

  function Trim(s: string): (r: string)
    ensures r == "" || (!IsJsSpace(r[0]) && !IsJsSpace(r[|r| - 1]))
    decreases |s|
  {
    if s == "" then ""
    else if IsJsSpace(s[0]) then Trim(s[1..])
    else if IsJsSpace(s[|s| - 1]) then Trim(s[..|s| - 1])
    else s
  }

  lemma TrimStep(s: string)
    ensures Trim(s) == if s == "" then "" else if IsJsSpace(s[0]) then Trim(s[1..])
                       else if IsJsSpace(s[|s| - 1]) then Trim(s[..|s| - 1]) else s
  {
    hide IsJsSpace;
  }

  lemma {:induction false} JsBlank(s: string)
    requires forall c :: c in s ==> IsJsSpace(c)
    ensures Trim(s) == ""
  {
    hide IsJsSpace, Trim;
    TrimStep(s);
    if s != "" {
      assert s[0] in s;
      JsBlank(s[1..]);
    }
  }

  lemma {:induction false} JsTail(core: string, back: string)
    requires core != "" && !IsJsSpace(core[0]) && !IsJsSpace(core[|core| - 1])
    requires forall c :: c in back ==> IsJsSpace(c)
    ensures Trim(core + back) == core
    decreases |back|
  {
    hide IsJsSpace, Trim;
    var s := core + back;
    TrimStep(s);
    if back != "" {
      assert s[|s| - 1] == back[|back| - 1] && back[|back| - 1] in back;
      assert s[..|s| - 1] == core + back[..|back| - 1];
      JsTail(core, back[..|back| - 1]);
    } else {
      assert s == core;
    }
  }

  /** Exactly the white space around the text is trimmed. */
  lemma {:induction false} TrimExactly(front: string, core: string, back: string)
    requires forall c :: c in front || c in back ==> IsJsSpace(c)
    requires core == "" || (!IsJsSpace(core[0]) && !IsJsSpace(core[|core| - 1]))
    ensures Trim(front + core + back) == core
    decreases |front|
  {
    hide IsJsSpace, Trim;
    var s := front + core + back;
    if front != "" {
      TrimStep(s);
      TrimExactly(front[1..], core, back);
      assert s[0] == front[0] && front[0] in front && s[1..] == front[1..] + core + back;
    } else if core == "" {
      assert s == back;
      JsBlank(back);
    } else {
      assert s == core + back;
      JsTail(core, back);
    }
  }

  /** How many digits stand at i. */
  function Run(s: string, i: nat): (n: nat)
    requires i <= |s|
    ensures DigitsAt(s, i, n) && (i + n < |s| ==> !IsDigit(s[i + n]))
    decreases |s| - i
  {
    if i < |s| && IsDigit(s[i]) then Run(s, i + 1) + 1 else 0
  }

  /** Where the zone starts: after the seconds, or after a point and at least one digit. */
  function ZoneAt(s: string): nat
    requires |s| >= 19
  {
    if |s| > 20 && s[19] == '.' && IsDigit(s[20]) then 20 + Run(s, 20) else 19
  }

  predicate ZoneShape(s: string, i: nat) {
    || (|s| == i + 1 && s[i] == 'Z')
    || (|s| == i + 6 && (s[i] == '+' || s[i] == '-') && DigitsAt(s, i + 1, 2) && s[i + 3] == ':' && DigitsAt(s, i + 4, 2))
  }

  predicate TimeShape(s: string) {
    && DayShape(s) && |s| >= 20 && s[10] == 'T'
    && DigitsAt(s, 11, 2) && s[13] == ':' && DigitsAt(s, 14, 2) && s[16] == ':' && DigitsAt(s, 17, 2)
    && ZoneShape(s, ZoneAt(s))
  }

  /** A real day, a real time of day, and an instant Date.parse reads as finite. */
  predicate RealTime(s: string, finite: string -> bool) {
    && TimeShape(s) && Valid(DayOf(s))
    && Number(s, 11, 2) <= 23 && Number(s, 14, 2) <= 59 && Number(s, 17, 2) <= 59
    && finite(s)
  }

  method IsParseableTime(s: string, finite: string -> bool) returns (r: bool)
    ensures r <==> RealTime(Trim(s), finite)
  {
    hide MakeDay, CivilFromDay, Number, Valid, Trim, ZoneShape;
    var trimmed := Trim(s);
    if !TimeShape(trimmed) { return false; }
    var year: int, month: int, day: int := Number(trimmed, 0, 4), Number(trimmed, 5, 2), Number(trimmed, 8, 2);
    if Number(trimmed, 11, 2) > 23 || Number(trimmed, 14, 2) > 59 || Number(trimmed, 17, 2) > 59 { return false; }
    var cal := new UtcDate();
    cal.SetUTCFullYear(year, month - 1, day);
    ReadBackIffValid(Civil(year, month - 1, day));
    if cal.UTC() != Civil(year, month - 1, day) { return false; }
    r := finite(trimmed);
  }
}
