/**
 The derived attributes of a season, as functions of its start and end year
 values: the display name in its two forms (the in-memory property and the
 query expression), the textual representation, and the reference date used
 to compute player ages.
 */
module Seasons {
  import opened Wrappers
  import opened Decimal

  datatype Date = Date(year: int, month: int, day: int)

  /** The range of years a Python `date` accepts (`datetime.MINYEAR`, `datetime.MAXYEAR`). */
  const MinYear: int := 1
  const MaxYear: int := 9999

  predicate IsLeapYear(y: int)
  {
    y % 4 == 0 && (y % 100 != 0 || y % 400 == 0)
  }

  function DaysInMonth(y: int, m: int): nat
    requires 1 <= m <= 12
  {
    if m == 2 then (if IsLeapYear(y) then 29 else 28)
    else if m == 4 || m == 6 || m == 9 || m == 11 then 30
    else 31
  }

  /** A date that Python's `date(year, month, day)` constructor accepts. */
  predicate IsCalendarDate(d: Date)
  {
    && MinYear <= d.year <= MaxYear
    && 1 <= d.month <= 12
    && 1 <= d.day <= DaysInMonth(d.year, d.month)
  }

  type CalendarDate = d: Date | IsCalendarDate(d) witness Date(2000, 1, 1)

  /** Chronological order of dates. */
  predicate NotAfter(x: Date, y: Date)
  {
    x.year < y.year || (x.year == y.year && (x.month < y.month || (x.month == y.month && x.day <= y.day)))
  }

  /** The `name` property of a loaded season: the start year alone when both
      years are the same, otherwise "start-end". */
  function PropertyName(startYr: int, endYr: int): (name: string)
    ensures Str(startYr) <= name
    ensures IsNumeral(name) <==> startYr == endYr
  {
    var first := Str(startYr);
    if startYr == endYr then first
    else
      var name := first + "-" + Str(endYr);
      assert name[|first|] == '-';
      assert !IsNumeral(name) by {
        if IsNumeral(name) {
          NumeralBodyIsDigits(name, |first|);
        }
      }
      name
  }

  /** The `name` query expression, evaluated on one row:
      CAST(yr1 AS VARCHAR) || CASE WHEN yr1 = yr2 THEN '' ELSE '-' || CAST(yr2 AS VARCHAR) END. */
  function ExpressionName(startYr: int, endYr: int): (name: string)
  {
    CastText(startYr) + (if startYr == endYr then "" else "-" + CastText(endYr))
  }

  /** Every character of a numeral after the first is a digit. */
  lemma NumeralBodyIsDigits(s: string, k: int)
    requires IsNumeral(s)
    requires 0 < k < |s|
    ensures IsDigit(s[k])
  {
    if s[0] == '-' {
      assert s[k] == s[1..][k - 1];
    }
  }

  /** The two forms of the season name agree on every pair of years, so a
      filter on the expression selects what the property displays. */
  lemma NameFormsAgree(startYr: int, endYr: int)
    ensures ExpressionName(startYr, endYr) == PropertyName(startYr, endYr)
  {
    CastAgreesWithStr(startYr);
    CastAgreesWithStr(endYr);
  }

  /** A year's text followed by nothing or by a '-'-led tail determines both the year and the tail. */
  lemma NumeralPrefixUnique(a: int, x: string, c: int, y: string)
    requires x == [] || x[0] == '-'
    requires y == [] || y[0] == '-'
    requires Str(a) + x == Str(c) + y
    ensures a == c && x == y
  {
    var p, q := Str(a), Str(c);
    if |p| < |q| {
      assert (q + y)[|p|] == q[|p|];
      NumeralBodyIsDigits(q, |p|);
      assert false;
    } else if |q| < |p| {
      assert (p + x)[|q|] == p[|q|];
      NumeralBodyIsDigits(p, |q|);
      assert false;
    } else {
      assert p == (p + x)[..|p|];
      assert q == (q + y)[..|q|];
      StrInjective(a, c);
      assert x == (p + x)[|p|..];
      assert y == (q + y)[|q|..];
    }
  }

  /** A season name identifies its pair of years: two seasons have the same
      name exactly when they have the same start and the same end year. */
  lemma NameDeterminesYears(a: int, b: int, c: int, d: int)
    ensures PropertyName(a, b) == PropertyName(c, d) <==> a == c && b == d
  {
    if PropertyName(a, b) == PropertyName(c, d) {
      NameSplits(a, b);
      NameSplits(c, d);
      NumeralPrefixUnique(a, NameTail(a, b), c, NameTail(c, d));
      if a != b {
        TailDeterminesEndYear(a, b, d);
      }
    }
  }

  /** What follows the start year in a season name. */
  function NameTail(startYr: int, endYr: int): (tail: string)
    ensures tail == "" <==> startYr == endYr
  {
    if startYr == endYr then "" else "-" + Str(endYr)
  }

  lemma NameSplits(startYr: int, endYr: int)
    ensures PropertyName(startYr, endYr) == Str(startYr) + NameTail(startYr, endYr)
    ensures NameTail(startYr, endYr) == [] || NameTail(startYr, endYr)[0] == '-'
  {
  }

  lemma TailDeterminesEndYear(a: int, b: int, d: int)
    requires a != b
    requires NameTail(a, b) == NameTail(a, d)
    ensures b == d
  {
    if a == d {
      assert false;
    }
    assert Str(b) == NameTail(a, b)[1..];
    assert Str(d) == NameTail(a, d)[1..];
    StrInjective(b, d);
  }

  /** `__repr__` of a season. */
  function SeasonRepr(startYr: int, endYr: int): (repr: string)
    ensures 10 <= |repr| && repr[8..|repr| - 2] == PropertyName(startYr, endYr)
  {
    var name := PropertyName(startYr, endYr);
    var repr := "<Season(" + name + ")>";
    assert repr[8..|repr| - 2] == name;
    repr
  }

  /** The representation shows the name and nothing else varies, so two
      seasons print alike exactly when they have the same years. */
  lemma ReprDeterminesYears(a: int, b: int, c: int, d: int)
    ensures SeasonRepr(a, b) == SeasonRepr(c, d) <==> a == c && b == d
  {
    NameDeterminesYears(a, b, c, d);
  }

  /** The names and representations the season tests expect. */
  lemma SeasonNameExamples()
    ensures PropertyName(1994, 1994) == "1994"
    ensures PropertyName(1994, 1995) == "1994-1995"
    ensures PropertyName(2014, 2015) == "2014-2015"
    ensures SeasonRepr(1994, 1994) == "<Season(1994)>"
    ensures SeasonRepr(1994, 1995) == "<Season(1994-1995)>"
  {
    Text1994();
    Text1995();
    Text2014();
    Text2015();
  }

  lemma Text1994()
    ensures Str(1994) == "1994"
  {
    assert Digits(1) == "1";
    assert Digits(19) == "19";
    assert Digits(199) == "199";
  }

  lemma Text1995()
    ensures Str(1995) == "1995"
  {
    assert Digits(199) == "199" by {
      assert Digits(1) == "1";
      assert Digits(19) == "19";
    }
  }

  lemma Text2014()
    ensures Str(2014) == "2014"
  {
    assert Digits(2) == "2";
    assert Digits(20) == "20";
    assert Digits(201) == "201";
  }

  lemma Text2015()
    ensures Str(2015) == "2015"
  {
    assert Digits(201) == "201" by {
      assert Digits(2) == "2";
      assert Digits(20) == "20";
    }
  }

  /** The `reference_date` property: Dec 31 of the end year for a
      calendar-year season, Jun 30 of the end year for a split season. There is
      none when the end year is outside the years a Python `date` accepts (the
      constructor raises). */
  function ReferenceDate(startYr: int, endYr: int): (d: Option<CalendarDate>)
    ensures d.Some? <==> MinYear <= endYr <= MaxYear
    ensures d.Some? ==> d.value.year == endYr
    ensures d.Some? ==> d.value.day == DaysInMonth(endYr, d.value.month)
    ensures d.Some? ==> (d.value.month == 12 <==> startYr == endYr)
    ensures d.Some? && startYr != endYr ==> d.value.month == 6
  {
    EndYearDate(startYr == endYr, endYr)
  }

  /** The reference date given only whether the season is a calendar year:
      the comparison of the two years is all `reference_date` reads of the
      start year. */
  function EndYearDate(calendarYear: bool, endYr: int): (d: Option<CalendarDate>)
    ensures d.Some? <==> MinYear <= endYr <= MaxYear
    ensures d.Some? ==> d.value.year == endYr
    ensures d.Some? ==> d.value.day == DaysInMonth(endYr, d.value.month)
    ensures d.Some? ==> (d.value.month == 12 <==> calendarYear)
    ensures d.Some? && !calendarYear ==> d.value.month == 6
  {
    if !(MinYear <= endYr <= MaxYear) then None
    else if calendarYear then Some(Date(endYr, 12, 31))
    else Some(Date(endYr, 6, 30))
  }

  /** For a calendar-year season the reference date is the last date of its
      year; for a split season it is the last date of the first half of the end
      year: a date of that year is on or before it exactly when it falls in
      January to June. */
  lemma ReferenceDateBounds(startYr: int, endYr: int, other: CalendarDate)
    requires ReferenceDate(startYr, endYr).Some?
    requires other.year == endYr
    ensures startYr == endYr ==> NotAfter(other, ReferenceDate(startYr, endYr).value)
    ensures startYr != endYr ==> (NotAfter(other, ReferenceDate(startYr, endYr).value) <==> other.month <= 6)
  {
  }

  /** The reference dates the season tests expect. */
  lemma ReferenceDateExamples()
    ensures ReferenceDate(1994, 1994) == Some(Date(1994, 12, 31))
    ensures ReferenceDate(1994, 1995) == Some(Date(1995, 6, 30))
  {
  }
}
