/**
  What the console's patches carry, field by field, and what they refuse: the stored waiver row, the
  names of a batch request, and the time texts that are let through.
*/
module PatchContents {
  import opened Options
  import opened Text
  import opened K8sNames
  import opened Calendar
  import opened Dates
  import opened DisplayText
  import opened JsonPatch
  import opened Patches

  // ---- the stored row ----

  /** The five optional texts as they are stored. */
  function Reason(w: Waiver): string { StripInvisible(Trim(w.reason.Or(""))) }
  function RequestedBy(w: Waiver): string { StripControlAndFormat(Trim(w.requestedBy.Or(""))) }
  function ApprovedBy(w: Waiver): string { StripControlAndFormat(Trim(w.approvedBy.Or(""))) }
  function ExpiresAt(w: Waiver): string { Trim(w.expiresAt.Or("")) }
  function ReviewBy(w: Waiver): string { Trim(w.reviewBy.Or("")) }

  /** The row has the member exactly when the text is not empty, and then the text is its value. */
  ghost predicate Field(members: map<string, Json>, key: string, text: string) {
    if text == "" then key !in members else key in members && members[key] == Text(text)
  }

  /** The stored row holds the name and the non-empty texts under their own keys, and nothing else. */
  lemma RowExactly(w: Waiver)
    ensures var row := Row(Stored(w));
      && row.Obj?
      && "name" in row.members && row.members["name"] == Text(w.name)
      && Field(row.members, "reason", Reason(w))
      && Field(row.members, "requestedBy", RequestedBy(w))
      && Field(row.members, "approvedBy", ApprovedBy(w))
      && Field(row.members, "expiresAt", ExpiresAt(w))
      && Field(row.members, "reviewBy", ReviewBy(w))
      && row.members.Keys <= {"name", "reason", "requestedBy", "approvedBy", "expiresAt", "reviewBy"}
  {
    hide Trim, StripInvisible, StripControlAndFormat;
  }

  /** Controls go everywhere; invisible characters too, but a reason keeps its joiners. */
  lemma StripsExactly(c: char, v: string)
    ensures StripInvisible("") == "" && StripControlAndFormat("") == ""
    ensures StripInvisible([c] + v)
         == (if IsControl(c) || (IsFormat(c) && c != '\U{200C}' && c != '\U{200D}') then "" else [c]) + StripInvisible(v)
    ensures StripControlAndFormat([c] + v)
         == (if IsControl(c) || IsFormat(c) then "" else [c]) + StripControlAndFormat(v)
  {
    hide IsControl, IsFormat;
    assert ([c] + v)[0] == c && ([c] + v)[1..] == v;
  }

  /** A waiver is refused for a bad name, an over-long text, a time that is none, or a full list it is not on. */
  lemma AddRefusesExactly(rows: Option<seq<Json>>, w: Waiver, version: string, finite: string -> bool)
    ensures AddWaiver(rows, w, version, finite) != [] <==>
      && ValidName(w.name) && |Reason(w)| <= 1024 && |RequestedBy(w)| <= 253 && |ApprovedBy(w)| <= 253
      && (ExpiresAt(w) == "" || RealTime(ExpiresAt(w), finite))
      && (ReviewBy(w) == "" || RealTime(ReviewBy(w), finite))
      && (rows.None? || |rows.value| < 256 || exists i :: 0 <= i < |rows.value| && RowName(rows.value[i]) == Some(w.name))
  {
    hide Trim, StripInvisible, StripControlAndFormat, RealTime, ValidName, Row, ResourceVersionTest;
    TrimAgain(w.expiresAt.Or(""));
    TrimAgain(w.reviewBy.Or(""));
    if rows.Some? {
      var i := IndexOf(rows.value, w.name);
      assert i == |rows.value| <==> forall k :: 0 <= k < |rows.value| ==> RowName(rows.value[k]) != Some(w.name);
    }
  }

  lemma TrimAgain(s: string)
    ensures Trim(Trim(s)) == Trim(s)
  {
    hide IsJsSpace, Trim;
    Dates.TrimStep(Trim(s));
  }

  /** A binding is refused for a bad or over-long name, one already bound, or a full list. */
  lemma BindRefusesExactly(current: Option<seq<string>>, name: string, version: string)
    ensures TailoredProfileBinding(current, name, version) != [] <==>
      ValidName(name) && |name| <= 51 && name !in current.Or([]) && |current.Or([])| < 32
  {
    hide ValidName;
  }

  /** A removal is refused without a place or a name. */
  lemma RemoveRefusesExactly(index: int, name: string, version: string)
    ensures RemoveWaiver(index, name, version) != [] <==> index >= 0 && name != ""
  {
  }

  // ---- the names of a batch request ----

  lemma {:induction false} BatchNamesSplit(a: seq<string>, b: seq<string>, list: seq<string>)
    requires |list| < 256
    ensures BatchNames(a + b, list)
         == if |BatchNames(a, list)| < 256 then BatchNames(b, BatchNames(a, list)) else BatchNames(a, list)
    decreases |a|
  {
    hide TrimSpace, ValidName;
    if a == [] {
      assert a + b == b;
    } else {
      assert (a + b)[0] == a[0] && (a + b)[1..] == a[1..] + b;
      var n := TrimSpace(a[0]);
      if n == "" || !ValidName(n) || n in list { BatchNamesSplit(a[1..], b, list); }
      else if |list| + 1 < 256 { BatchNamesSplit(a[1..], b, list + [n]); }
    }
  }

  /** Name by name: each new valid name, trimmed, goes to the end until there are 256. */
  lemma BatchNamesExactly(names: seq<string>, name: string)
    ensures BatchNames([], []) == []
    ensures var list, n := BatchNames(names, []), TrimSpace(name);
      BatchNames(names + [name], []) == if |list| < 256 && ValidName(n) && n !in list then list + [n] else list
  {
    hide TrimSpace, ValidName;
    BatchNamesSplit(names, [name], []);
    assert [name][1..] == [];
    assert !ValidName("") by { NoEmptyName(); }
  }

  /** A batch is asked for exactly when some name is valid once trimmed. */
  lemma {:induction false} BatchAsksExactly(hasAnnotations: bool, names: seq<string>, version: string)
    ensures BatchOps(hasAnnotations, BatchNames(names, []), version) != []
       <==> exists n :: n in names && ValidName(TrimSpace(n))
    decreases |names|
  {
    hide TrimSpace, ValidName, ResourceVersionTest;
    if names == [] {
      BatchNamesExactly([], "");
    } else {
      var front, last := names[..|names| - 1], names[|names| - 1];
      assert names == front + [last];
      BatchAsksExactly(hasAnnotations, front, version);
      BatchNamesExactly(front, last);
    }
  }

  lemma NoEmptyName()
    ensures !ValidName("")
  {
  }

  // ---- time texts ----

  function DigitChar(n: nat): char
    requires n < 10
  {
    ('0' as int + n) as char
  }

  function Two(n: nat): string
    requires n < 100
  {
    [DigitChar(n / 10), DigitChar(n % 10)]
  }

  function Four(n: nat): string
    requires n < 10000
  {
    [DigitChar(n / 1000), DigitChar(n / 100 % 10), DigitChar(n / 10 % 10), DigitChar(n % 10)]
  }

  /** Six fields of a time, each in the digits there are for it. */
  datatype Fields = Fields(year: nat, month: nat, date: nat, hour: nat, minute: nat, second: nat)

  predicate Fits(f: Fields) {
    f.year < 10000 && f.month < 100 && f.date < 100 && f.hour < 100 && f.minute < 100 && f.second < 100
  }

  /** year-month-dateThour:minute:second, without the zone. */
  function Spelled(f: Fields): (s: string)
    requires Fits(f)
    ensures |s| == 19
  {
    Four(f.year) + "-" + Two(f.month) + "-" + Two(f.date) + "T" + Two(f.hour) + ":" + Two(f.minute) + ":" + Two(f.second)
  }

  /** Z, or a signed offset of hours and minutes. */
  predicate Zone(z: string) {
    || z == "Z"
    || (|z| == 6 && z[0] in {'+', '-'} && IsDigit(z[1]) && IsDigit(z[2]) && z[3] == ':' && IsDigit(z[4]) && IsDigit(z[5]))
  }

  /** A fraction of a second: nothing, or a point and digits. */
  predicate Fraction(s: string) {
    s == "" || (|s| > 1 && s[0] == '.' && forall i :: 1 <= i < |s| ==> IsDigit(s[i]))
  }

  lemma TwoReads(s: string, i: nat, n: nat)
    requires n < 100 && i + 2 <= |s| && s[i..i + 2] == Two(n)
    ensures DigitsAt(s, i, 2) && Number(s, i, 2) == n
  {
    assert s[i] == Two(n)[0] && s[i + 1] == Two(n)[1];
    assert Number(s, i, 1) == n / 10 && Number(s, i, 0) == 0;
  }

  lemma Decompose(n: nat)
    requires n < 10000
    ensures n == ((n / 1000 * 10 + n / 100 % 10) * 10 + n / 10 % 10) * 10 + n % 10
  {
  }

  lemma DigitStep(s: string, n: nat, d: nat)
    requires d < 10 && DigitsAt(s, 0, n) && n < |s| && s[n] == DigitChar(d)
    ensures DigitsAt(s, 0, n + 1) && Number(s, 0, n + 1) == Number(s, 0, n) * 10 + d
  {
  }

  lemma FourReads(s: string, n: nat)
    requires n < 10000 && 4 <= |s| && s[..4] == Four(n)
    ensures DigitsAt(s, 0, 4) && Number(s, 0, 4) == n
  {
    hide DigitChar, Number;
    assert s[0] == Four(n)[0] && s[1] == Four(n)[1] && s[2] == Four(n)[2] && s[3] == Four(n)[3];
    DigitStep(s, 0, n / 1000);
    DigitStep(s, 1, n / 100 % 10);
    DigitStep(s, 2, n / 10 % 10);
    DigitStep(s, 3, n % 10);
    assert Number(s, 0, 0) == 0 by { NoDigits(s); }
    Decompose(n);
  }

  lemma NoDigits(s: string)
    ensures Number(s, 0, 0) == 0
  {
  }

  lemma SpelledReads(f: Fields, rest: string)
    requires Fits(f)
    ensures var s := Spelled(f) + rest;
      && DayShape(s) && DayOf(s) == Civil(f.year, f.month - 1, f.date)
      && s[10] == 'T' && s[13] == ':' && s[16] == ':'
      && DigitsAt(s, 11, 2) && Number(s, 11, 2) == f.hour
      && DigitsAt(s, 14, 2) && Number(s, 14, 2) == f.minute
      && DigitsAt(s, 17, 2) && Number(s, 17, 2) == f.second
      && s[19..] == rest
  {
    hide Number, Two, Four;
    var s := Spelled(f) + rest;
    Lengths(f);
    assert s[..4] == Four(f.year);
    assert s[5..7] == Two(f.month) && s[8..10] == Two(f.date);
    assert s[11..13] == Two(f.hour) && s[14..16] == Two(f.minute) && s[17..19] == Two(f.second);
    FourReads(s, f.year);
    TwoReads(s, 5, f.month);
    TwoReads(s, 8, f.date);
    TwoReads(s, 11, f.hour);
    TwoReads(s, 14, f.minute);
    TwoReads(s, 17, f.second);
  }

  lemma Lengths(f: Fields)
    requires Fits(f)
    ensures |Four(f.year)| == 4 && |Two(f.month)| == 2 && |Two(f.date)| == 2
    ensures |Two(f.hour)| == 2 && |Two(f.minute)| == 2 && |Two(f.second)| == 2
  {
  }

  lemma {:induction false} RunReads(s: string, i: nat, n: nat)
    requires DigitsAt(s, i, n) && i + n < |s| && !IsDigit(s[i + n])
    ensures Run(s, i) == n
    decreases n
  {
    if n > 0 {
      assert IsDigit(s[i]);
      assert DigitsAt(s, i + 1, n - 1) by {
        forall k | i + 1 <= k < i + n ensures IsDigit(s[k]) { }
      }
      RunReads(s, i + 1, n - 1);
    }
  }

  /**
    A spelled time with a zone is let through if and only if its date exists, its time of day does,
    and its instant is finite.
  */
  lemma TimesExactly(f: Fields, fraction: string, zone: string, finite: string -> bool)
    requires Fits(f) && Fraction(fraction) && Zone(zone)
    ensures var s := Spelled(f) + (fraction + zone);
      RealTime(s, finite) <==>
        1 <= f.month <= 12 && 1 <= f.date <= DaysInMonth(f.year, f.month - 1)
        && f.hour <= 23 && f.minute <= 59 && f.second <= 59 && finite(s)
  {
    hide Number, Spelled, DayOf, DayShape, DaysInMonth;
    var rest := fraction + zone;
    var s := Spelled(f) + rest;
    SpelledReads(f, rest);
    ZoneReads(s, fraction, zone);
  }

  lemma ZoneReads(s: string, fraction: string, zone: string)
    requires |s| >= 19 && s[19..] == fraction + zone && Fraction(fraction) && Zone(zone)
    ensures |s| >= 20 && ZoneShape(s, ZoneAt(s))
  {
    hide Fraction, ZoneShape;
    var at := 19 + |fraction|;
    var head := s[..19];
    assert s == head + fraction + zone;
    FractionReads(s, head, fraction, zone);
    ZoneStands(s, head + fraction, zone);
  }

  lemma FractionReads(s: string, head: string, fraction: string, zone: string)
    requires |head| == 19 && s == head + fraction + zone && Fraction(fraction) && Zone(zone)
    ensures |s| >= 20 && ZoneAt(s) == 19 + |fraction|
  {
    assert s[19 + |fraction|] == zone[0] && !IsDigit(zone[0]) && zone[0] != '.';
    if fraction != "" {
      assert s[19] == fraction[0];
      forall k | 20 <= k < 19 + |fraction| ensures IsDigit(s[k]) { assert s[k] == fraction[k - 19]; }
      RunReads(s, 20, |fraction| - 1);
    }
  }

  lemma ZoneStands(s: string, before: string, zone: string)
    requires s == before + zone && Zone(zone)
    ensures ZoneShape(s, |before|)
  {
    var at := |before|;
    assert s[at] == zone[0];
    if zone != "Z" {
      assert s[at + 1] == zone[1] && s[at + 2] == zone[2] && s[at + 3] == zone[3];
      assert s[at + 4] == zone[4] && s[at + 5] == zone[5];
    }
  }
}
