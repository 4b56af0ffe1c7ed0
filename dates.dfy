/**
 * Calendar dates as the pages print them. A JavaScript `Date` is modelled as
 * an `Instant`: its time value in milliseconds together with its calendar
 * date in UTC. Converting a time value to a calendar date is not modelled;
 * the two components are taken as given.
 */
module Dates {
  import opened Text

  datatype CivilDate = CivilDate(year: int, month: int, day: int)

  /** A month of the year and a day of the month, as `Date` produces them. */
  predicate ValidCivil(c: CivilDate) {
    1 <= c.month <= 12 && 1 <= c.day <= 31
  }

  /** A calendar date a `Date` can produce. */
  type ValidDate = c: CivilDate | ValidCivil(c) witness CivilDate(1970, 1, 1)

  /** A `Date`: milliseconds since the epoch and the UTC calendar date they fall on. */
  datatype Instant = Instant(ms: int, utc: ValidDate)

  /**
   * A date as the local-time getters see it: a day number (consecutive days
   * have consecutive numbers) and the calendar date of that day.
   */
  datatype LocalDay = LocalDay(day: int, civil: ValidDate)

  /** The month count `year * 12 + (month - 1)`, so consecutive months differ by one. */
  function MonthIndex(c: CivilDate): int {
    c.year * 12 + (c.month - 1)
  }

  /** The calendar month of a month count. */
  function MonthOf(index: int): (c: CivilDate)
    ensures ValidCivil(c) && c.day == 1 && MonthIndex(c) == index
  {
    CivilDate(index / 12, index % 12 + 1, 1)
  }

  function Pow10(k: nat): nat {
    if k == 0 then 1 else 10 * Pow10(k - 1)
  }

  lemma {:induction false} NatToStringLength(n: nat, k: nat)
    requires k >= 1 && n < Pow10(k)
    ensures |NatToString(n)| <= k
  {
    assert Pow10(1) == 10;
    if n >= 10 {
      NatToStringLength(n / 10, k - 1);
    }
  }

  predicate AllZeros(z: string) {
    forall i :: 0 <= i < |z| ==> z[i] == '0'
  }

  lemma {:induction false} DecimalOfZeros(z: string)
    requires AllZeros(z)
    ensures AllDigits(z) && DecimalValue(z) == 0
  {
    if z != [] {
      DecimalOfZeros(z[..|z| - 1]);
    }
  }

  /** Leading zeros do not change a decimal value. */
  lemma {:induction false} DecimalLeadingZeros(z: string, s: string)
    requires AllZeros(z) && AllDigits(s)
    ensures AllDigits(z + s) && DecimalValue(z + s) == DecimalValue(s)
    decreases |s|
  {
    var t := z + s;
    if s == [] {
      assert t == z;
      DecimalOfZeros(z);
    } else {
      DecimalLeadingZeros(z, s[..|s| - 1]);
      assert t[..|t| - 1] == z + s[..|s| - 1];
    }
  }

  /** `String(n).padStart(width, '0')`, read back as a number. */
  lemma PaddedValue(n: nat, width: nat)
    ensures var r := PadStart(NatToString(n), width, '0');
            AllDigits(r) && DecimalValue(r) == n
  {
    var s := NatToString(n);
    var r := PadStart(s, width, '0');
    DecimalOfNatToString(n);
    var k := |r| - |s|;
    assert r == r[..k] + r[k..];
    DecimalLeadingZeros(r[..k], s);
  }

  function Pad2(n: nat): string {
    PadStart(NatToString(n), 2, '0')
  }

  /** A number below 10^width padded to width digits reads back as itself. */
  lemma PaddedExact(n: nat, width: nat)
    requires width >= 1 && n < Pow10(width)
    ensures var r := PadStart(NatToString(n), width, '0');
            |r| == width && AllDigits(r) && DecimalValue(r) == n
  {
    NatToStringLength(n, width);
    PaddedValue(n, width);
  }

  /** The year field of `toISOString`: four digits, or a sign and six digits outside 0..9999. */
  function IsoYear(y: int): (r: string)
    ensures |r| >= 4
  {
    if 0 <= y <= 9999 then PadStart(NatToString(y), 4, '0')
    else (if y < 0 then "-" else "+") + PadStart(NatToString(if y < 0 then -y else y), 6, '0')
  }

  /** `d.toISOString()` up to the time separator. */
  function IsoDatePart(c: CivilDate): string
    requires ValidCivil(c)
  {
    IsoYear(c.year) + "-" + Pad2(c.month) + "-" + Pad2(c.day) + "T"
  }

  /** `d.toISOString().slice(0, 10)`. */
  function IsoDate10(c: CivilDate): (r: string)
    requires ValidCivil(c)
    ensures |r| == 10
  {
    IsoDatePart(c)[..10]
  }

  /** Where the fields sit in the first ten characters of "YYYY-MM-DDT". */
  lemma Fields4(y: string, m: string, d: string)
    requires |y| == 4 && |m| == 2 && |d| == 2
    ensures var r := (y + "-" + m + "-" + d + "T")[..10];
            r[..4] == y && r[4] == '-' && r[5..7] == m && r[7] == '-' && r[8..] == d
  {
  }

  lemma Pad2Digits(n: nat)
    requires n < 100
    ensures |Pad2(n)| == 2 && AllDigits(Pad2(n)) && DecimalValue(Pad2(n)) == n
  {
    assert Pow10(2) == 100;
    PaddedExact(n, 2);
  }

  lemma YearDigits(y: int)
    requires 0 <= y <= 9999
    ensures |IsoYear(y)| == 4 && AllDigits(IsoYear(y)) && DecimalValue(IsoYear(y)) == y
  {
    assert Pow10(4) == 10000;
    PaddedExact(y, 4);
  }

  /** The padded fields of a date with a four-digit year. */
  lemma DateDigits(c: CivilDate)
    requires ValidCivil(c) && 0 <= c.year <= 9999
    ensures |IsoYear(c.year)| == 4 && AllDigits(IsoYear(c.year)) && DecimalValue(IsoYear(c.year)) == c.year
    ensures |Pad2(c.month)| == 2 && AllDigits(Pad2(c.month)) && DecimalValue(Pad2(c.month)) == c.month
    ensures |Pad2(c.day)| == 2 && AllDigits(Pad2(c.day)) && DecimalValue(Pad2(c.day)) == c.day
  {
    YearDigits(c.year);
    Pad2Digits(c.month);
    Pad2Digits(c.day);
  }

  /** For years 0..9999 the first ten characters are the calendar date YYYY-MM-DD. */
  lemma IsoDate10Format(c: CivilDate)
    requires ValidCivil(c) && 0 <= c.year <= 9999
    ensures var r := IsoDate10(c);
            r[4] == '-' && r[7] == '-'
            && AllDigits(r[..4]) && AllDigits(r[5..7]) && AllDigits(r[8..])
            && DecimalValue(r[..4]) == c.year
            && DecimalValue(r[5..7]) == c.month
            && DecimalValue(r[8..]) == c.day
  {
    var y, m, d := IsoYear(c.year), Pad2(c.month), Pad2(c.day);
    var r := IsoDate10(c);
    assert r == (y + "-" + m + "-" + d + "T")[..10];
    DateDigits(c);
    Fields4(y, m, d);
  }

  lemma Fields7(y: string, m: string, d: string)
    requires |y| == 7 && |m| == 2 && |d| == 2
    ensures var r := (y + "-" + m + "-" + d + "T")[..10];
            r[..7] == y && r[7] == '-'
  {
  }

  lemma ExtendedYearDigits(y: int)
    requires 10000 <= y < 1000000
    ensures var p := PadStart(NatToString(y), 6, '0');
            IsoYear(y) == "+" + p && |p| == 6 && AllDigits(p) && DecimalValue(p) == y
  {
    assert Pow10(6) == 1000000;
    PaddedExact(y, 6);
  }

  /** Outside 0..9999 the slice cuts the extended year format: "+010000-01" for year 10000. */
  lemma IsoDate10Extended(c: CivilDate)
    requires ValidCivil(c) && 10000 <= c.year < 1000000
    ensures var r := IsoDate10(c);
            r[0] == '+' && AllDigits(r[1..7]) && DecimalValue(r[1..7]) == c.year && r[7] == '-'
  {
    var y, m, d := IsoYear(c.year), Pad2(c.month), Pad2(c.day);
    var r := IsoDate10(c);
    assert r == (y + "-" + m + "-" + d + "T")[..10];
    ExtendedYearDigits(c.year);
    Pad2Digits(c.month);
    Pad2Digits(c.day);
    var p := PadStart(NatToString(c.year), 6, '0');
    Fields7(y, m, d);
    assert r[1..7] == p;
  }

  /** `${y}-${String(m).padStart(2, '0')}-${String(d).padStart(2, '0')}`. */
  function DayKey(c: CivilDate): string
    requires ValidCivil(c)
  {
    IntToString(c.year) + "-" + Pad2(c.month) + "-" + Pad2(c.day)
  }

  /** For four-digit years the day key is the ISO 8601 calendar date. */
  lemma DayKeyIsIso(c: CivilDate)
    requires ValidCivil(c) && 1000 <= c.year <= 9999
    ensures DayKey(c) == IsoDate10(c)
  {
    var s := NatToString(c.year);
    assert Pow10(3) == 1000 && Pow10(4) == 10000;
    NatToStringLengthAtLeast(c.year, 3);
    NatToStringLength(c.year, 4);
    var y := IsoYear(c.year);
    assert y == s;
    Pad2Digits(c.month);
    Pad2Digits(c.day);
    DatePrefix(y, Pad2(c.month), Pad2(c.day));
  }

  /** The first ten characters of "YYYY-MM-DDT" are "YYYY-MM-DD". */
  lemma DatePrefix(y: string, m: string, d: string)
    requires |y| == 4 && |m| == 2 && |d| == 2
    ensures (y + "-" + m + "-" + d + "T")[..10] == y + "-" + m + "-" + d
  {
    var k := y + "-" + m + "-" + d;
    assert |k| == 10;
    assert k + "T" == (y + "-" + m + "-" + d + "T");
    assert (k + "T")[..|k|] == k;
  }

  /** A string `y-mm` determines its two fields. */
  lemma DashFields2(y1: string, m1: string, y2: string, m2: string)
    requires |m1| == 2 && |m2| == 2
    requires y1 + "-" + m1 == y2 + "-" + m2
    ensures y1 == y2 && m1 == m2
  {
    var k := y1 + "-" + m1;
    assert |y1| == |y2|;
    assert k[..|y1|] == y1 && k[..|y2|] == y2;
    assert k[|y1| + 1..] == m1 && k[|y2| + 1..] == m2;
  }

  /** A string `y-mm-dd` determines its three fields. */
  lemma DashFields3(y1: string, m1: string, d1: string, y2: string, m2: string, d2: string)
    requires |m1| == 2 && |d1| == 2 && |m2| == 2 && |d2| == 2
    requires y1 + "-" + m1 + "-" + d1 == y2 + "-" + m2 + "-" + d2
    ensures y1 == y2 && m1 == m2 && d1 == d2
  {
    var k := y1 + "-" + m1 + "-" + d1;
    assert |y1| == |y2|;
    assert k[..|y1|] == y1 && k[..|y2|] == y2;
    assert k[|y1| + 1..|y1| + 3] == m1 && k[|y2| + 1..|y2| + 3] == m2;
    assert k[|y1| + 4..] == d1 && k[|y2| + 4..] == d2;
  }

  lemma {:induction false} NatToStringLengthAtLeast(n: nat, k: nat)
    requires n >= Pow10(k)
    ensures |NatToString(n)| > k
  {
    if k > 0 {
      NatToStringLengthAtLeast(n / 10, k - 1);
    }
  }
}
