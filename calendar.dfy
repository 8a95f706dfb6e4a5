/** Calendar dates as the clock returns them, and their ISO 8601 rendering
    (`datetime.date.isoformat()`). */
module Calendar {
  import opened Text

  /** A proleptic Gregorian date, as Python's `datetime.date` holds it. */
  datatype Date = Date(year: int, month: int, day: int)

  predicate IsLeapYear(year: int)
  {
    year % 4 == 0 && (year % 100 != 0 || year % 400 == 0)
  }

  function DaysInMonth(year: int, month: int): int
    requires 1 <= month <= 12
  {
    if month == 2 then (if IsLeapYear(year) then 29 else 28)
    else if month == 4 || month == 6 || month == 9 || month == 11 then 30
    else 31
  }

  /** The dates `datetime.date` can represent: years 1 to 9999. */
  predicate ValidDate(d: Date)
  {
    1 <= d.year <= 9999 && 1 <= d.month <= 12 && 1 <= d.day <= DaysInMonth(d.year, d.month)
  }

  /** `d.isoformat()`, that is `'%04d-%02d-%02d' % (year, month, day)`. */
  function IsoFormat(d: Date): (r: string)
    requires ValidDate(d)
    ensures |r| == 10
  {
    assert Pow10(4) == 10000 && Pow10(2) == 100;
    Padded(d.year, 4) + "-" + Padded(d.month, 2) + "-" + Padded(d.day, 2)
  }

  /** The year, month and day can be read back from their fixed positions in
      the ISO string, and every character of it is a digit or a hyphen. */
  lemma IsoFormatFields(d: Date)
    requires ValidDate(d)
    ensures var r := IsoFormat(d);
      && r[4] == '-' && r[7] == '-'
      && AllDigits(r[..4]) && AllDigits(r[5..7]) && AllDigits(r[8..])
      && DecimalValue(r[..4]) == d.year
      && DecimalValue(r[5..7]) == d.month
      && DecimalValue(r[8..]) == d.day
      && forall i :: 0 <= i < |r| ==> IsSafeChar(r[i])
  {
    assert Pow10(4) == 10000 && Pow10(2) == 100;
    var r := IsoFormat(d);
    var y, m, dd := Padded(d.year, 4), Padded(d.month, 2), Padded(d.day, 2);
    assert r == y + "-" + m + "-" + dd;
    assert r[..4] == y && r[5..7] == m && r[8..] == dd;
  }

  /** Different dates give different ISO strings. */
  lemma IsoFormatInjective(d: Date, e: Date)
    requires ValidDate(d) && ValidDate(e)
    ensures IsoFormat(d) == IsoFormat(e) ==> d == e
  {
    IsoFormatFields(d);
    IsoFormatFields(e);
  }
}
