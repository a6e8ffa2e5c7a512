/**
 The season attributes read against the stored tables. A loaded season reaches
 its years through the `start_year` and `end_year` relationships; the query
 form of `name` reaches them through two scalar subqueries on `years`. A
 missing year row is an error for the loaded object (the attribute is read
 from `None`) and SQL NULL for the query. `years.yr` itself is nullable: the
 loaded object then formats Python's `None`, while the query yields NULL, so
 the two forms agree exactly on the seasons whose year values are both
 present or whose year rows do not both load.
 */
module SeasonQueries {
  import opened Wrappers
  import opened Decimal
  import opened Seasons
  import opened Schema
  import opened Store
  import opened Integrity

  /** The year row a nullable foreign key loads: none for a NULL key and for
      a key no year row has. */
  function YearRowOf(years: map<int, Year>, yearId: Option<int>): (y: Option<Year>)
    ensures y.Some? <==> yearId.Some? && yearId.value in years
    ensures y.Some? ==> y.value == years[yearId.value]
  {
    if yearId.Some? && yearId.value in years then Some(years[yearId.value]) else None
  }

  /** The scalar subquery `SELECT yr FROM years WHERE id = key`: NULL for a
      NULL key, for a key no row has, and for a row whose `yr` is NULL. */
  function YearValue(years: map<int, Year>, yearId: Option<int>): (v: Option<int>)
    ensures v.Some? <==> YearRowOf(years, yearId).Some? && YearRowOf(years, yearId).value.yr.Some?
    ensures v.Some? ==> v == YearRowOf(years, yearId).value.yr
  {
    match YearRowOf(years, yearId)
    case Some(y) => y.yr
    case None => None
  }

  /** The start and end year values of season `sid`, when both are present. */
  function SeasonYears(db: Store, sid: int): (r: Option<(int, int)>)
    requires sid in db.seasons
    ensures r.Some? <==> YearValue(db.years, db.seasons[sid].startYearId).Some?
                         && YearValue(db.years, db.seasons[sid].endYearId).Some?
  {
    var s := db.seasons[sid];
    match (YearValue(db.years, s.startYearId), YearValue(db.years, s.endYearId))
    case (Some(a), Some(b)) => Some((a, b))
    case _ => None
  }

  /** Both year rows of season `sid` load, whatever their `yr` values. */
  predicate YearRowsLoad(db: Store, sid: int)
    requires sid in db.seasons
  {
    YearRowOf(db.years, db.seasons[sid].startYearId).Some? && YearRowOf(db.years, db.seasons[sid].endYearId).Some?
  }

  /** Python's `str()` of a `yr` attribute, which is `None` for a NULL column. */
  function PyStr(v: Option<int>): (s: string)
    ensures IsNumeral(s) <==> v.Some?
    ensures v.Some? ==> NumeralValue(s) == v.value
  {
    match v
    case Some(i) => StrRoundTrip(i); Str(i)
    case None => assert !IsDigit("None"[0]); "None"
  }

  /** The `name` property on two loaded year objects. In Python `None == None`
      holds, so two NULL years give the calendar-year form "None". */
  function LoadedName(a: Option<int>, b: Option<int>): (name: string)
    ensures a.Some? && b.Some? ==> name == PropertyName(a.value, b.value)
    ensures PyStr(a) <= name
  {
    if a == b then PyStr(a) else PyStr(a) + "-" + PyStr(b)
  }

  /** The `name` property of a loaded season; `None` when a year row is missing. */
  function SeasonName(db: Store, sid: int): (name: Option<string>)
    requires sid in db.seasons
    ensures name.Some? <==> YearRowsLoad(db, sid)
    ensures SeasonYears(db, sid).Some? ==>
              name == Some(PropertyName(SeasonYears(db, sid).value.0, SeasonYears(db, sid).value.1))
  {
    var s := db.seasons[sid];
    match (YearRowOf(db.years, s.startYearId), YearRowOf(db.years, s.endYearId))
    case (Some(x), Some(y)) => Some(LoadedName(x.yr, y.yr))
    case _ => None
  }

  /** `reference_date` of a loaded season. It reads the start year only to
      compare it with the end year, so a NULL start year makes a split season;
      a NULL end year, a missing year row, or an end year outside the range of
      `date` gives no date. */
  function SeasonReferenceDate(db: Store, sid: int): (d: Option<CalendarDate>)
    requires sid in db.seasons
    ensures d.Some? <==>
              && YearRowsLoad(db, sid)
              && YearValue(db.years, db.seasons[sid].endYearId).Some?
              && MinYear <= YearValue(db.years, db.seasons[sid].endYearId).value <= MaxYear
    ensures d.Some? ==> d.value.year == YearValue(db.years, db.seasons[sid].endYearId).value
    ensures d.Some? ==>
              (d.value.month == 12 <==>
                 YearValue(db.years, db.seasons[sid].startYearId)
                   == YearValue(db.years, db.seasons[sid].endYearId))
    ensures d.Some? ==> d.value.day == DaysInMonth(d.value.year, d.value.month)
    ensures SeasonYears(db, sid).Some? ==>
              d == ReferenceDate(SeasonYears(db, sid).value.0, SeasonYears(db, sid).value.1)
  {
    var s := db.seasons[sid];
    match (YearRowOf(db.years, s.startYearId), YearRowOf(db.years, s.endYearId))
    case (Some(x), Some(y)) => if y.yr.Some? then EndYearDate(x.yr == y.yr, y.yr.value) else None
    case _ => None
  }

  // The SQL operators of the `name` expression, with `None` for NULL.

  /** `CAST(x AS VARCHAR)`: NULL stays NULL. */
  function SqlCast(x: Option<int>): (r: Option<string>)
    ensures r.Some? <==> x.Some?
  {
    match x
    case Some(i) => Some(CastText(i))
    case None => None
  }

  /** `a || b`: NULL when either side is NULL. */
  function SqlConcat(a: Option<string>, b: Option<string>): (r: Option<string>)
    ensures r.Some? <==> a.Some? && b.Some?
  {
    if a.Some? && b.Some? then Some(a.value + b.value) else None
  }

  /** `a = b`: NULL when either side is NULL. */
  function SqlEquals(a: Option<int>, b: Option<int>): (r: Option<bool>)
    ensures r.Some? <==> a.Some? && b.Some?
  {
    if a.Some? && b.Some? then Some(a.value == b.value) else None
  }

  /** `CASE WHEN c THEN x ELSE y END`: a NULL condition takes the ELSE branch. */
  function SqlCase(c: Option<bool>, x: Option<string>, y: Option<string>): (r: Option<string>)
    ensures c == Some(true) ==> r == x
    ensures c != Some(true) ==> r == y
  {
    if c == Some(true) then x else y
  }

  /** The `name` query expression evaluated on the row of season `sid`. */
  function SeasonNameColumn(db: Store, sid: int): (column: Option<string>)
    requires sid in db.seasons
    ensures column.Some? <==> SeasonYears(db, sid).Some?
  {
    var s := db.seasons[sid];
    var yr1 := YearValue(db.years, s.startYearId);
    var yr2 := YearValue(db.years, s.endYearId);
    SqlConcat(SqlCast(yr1), SqlCase(SqlEquals(yr1, yr2), Some(""), SqlConcat(Some("-"), SqlCast(yr2))))
  }

  /** The query form and the property form of `name`. Where both year values
      are present they hold the same text; where a year row is missing the
      column is NULL and the property raises. They differ exactly on the
      seasons whose year rows load but hold a NULL `yr`: the property then
      formats `None` and the column is NULL. */
  lemma SeasonNameFormsAgree(db: Store, sid: int)
    requires sid in db.seasons
    ensures SeasonYears(db, sid).Some? ==>
              SeasonNameColumn(db, sid) == SeasonName(db, sid)
                == Some(PropertyName(SeasonYears(db, sid).value.0, SeasonYears(db, sid).value.1))
    ensures SeasonNameColumn(db, sid) == SeasonName(db, sid) <==>
              SeasonYears(db, sid).Some? || !YearRowsLoad(db, sid)
  {
    var s := db.seasons[sid];
    var yr1 := YearValue(db.years, s.startYearId);
    var yr2 := YearValue(db.years, s.endYearId);
    if yr1.Some? && yr2.Some? {
      NameFormsAgree(yr1.value, yr2.value);
    }
  }

  /** `query(Seasons).filter(Seasons.name == name)`: NULL never compares equal. */
  function SeasonsNamed(db: Store, name: string): (r: set<int>)
    ensures r <= db.seasons.Keys
  {
    set sid | sid in db.seasons && SeasonNameColumn(db, sid) == Some(name)
  }

  /** The seasons whose year values are `a` and `b`. */
  function SeasonsWithYears(db: Store, a: int, b: int): (r: set<int>)
    ensures r <= db.seasons.Keys
  {
    set sid | sid in db.seasons && SeasonYears(db, sid) == Some((a, b))
  }

  /** Filtering by the name of a pair of years selects exactly the seasons
      that have that start year and that end year. */
  lemma FilterByName(db: Store, a: int, b: int)
    ensures SeasonsNamed(db, PropertyName(a, b)) == SeasonsWithYears(db, a, b)
  {
    forall sid | sid in db.seasons
      ensures SeasonNameColumn(db, sid) == Some(PropertyName(a, b)) <==> SeasonYears(db, sid) == Some((a, b))
    {
      SeasonNameFormsAgree(db, sid);
      match SeasonYears(db, sid)
      case Some((c, d)) => NameDeterminesYears(a, b, c, d);
      case None =>
    }
  }

  /** Two year keys whose `yr` values are present and equal name the same
      year row when `yr` is unique. */
  lemma SameValueSameYearRow(years: map<int, Year>, k1: Option<int>, k2: Option<int>)
    requires YearsUnique(years)
    requires YearValue(years, k1).Some? && YearValue(years, k1) == YearValue(years, k2)
    ensures k1 == k2
  {
    var i, j := k1.value, k2.value;
    assert i in years && j in years;
    assert years[i].yr == YearValue(years, k1);
    assert years[j].yr == YearValue(years, k2);
    assert i == j;
  }

  /** With `yr` unique, two stored seasons whose `name` column holds the same
      text refer to the same start year row and the same end year row. */
  lemma SameNameSameYearRows(db: Store, s1: int, s2: int)
    requires YearsUnique(db.years)
    requires s1 in db.seasons && s2 in db.seasons
    requires SeasonNameColumn(db, s1).Some? && SeasonNameColumn(db, s1) == SeasonNameColumn(db, s2)
    ensures db.seasons[s1] == db.seasons[s2]
  {
    SeasonNameFormsAgree(db, s1);
    SeasonNameFormsAgree(db, s2);
    var (a, b) := SeasonYears(db, s1).value;
    var (c, d) := SeasonYears(db, s2).value;
    NameDeterminesYears(a, b, c, d);
    var x, y := db.seasons[s1], db.seasons[s2];
    SameValueSameYearRow(db.years, x.startYearId, y.startYearId);
    SameValueSameYearRow(db.years, x.endYearId, y.endYearId);
  }

  /** The `__repr__` of a loaded season: it exists when both year rows load,
      and with both `yr` present it is the repr of those years. */
  function SeasonText(db: Store, sid: int): (s: Option<string>)
    requires sid in db.seasons
    ensures s.Some? <==> YearRowsLoad(db, sid)
    ensures SeasonYears(db, sid).Some? ==>
              s == Some(SeasonRepr(SeasonYears(db, sid).value.0, SeasonYears(db, sid).value.1))
  {
    match SeasonName(db, sid)
    case Some(name) => Some("<Season(" + name + ")>")
    case None => None
  }

  /** With `yr` unique and NOT NULL, two seasons whose reprs load and agree
      refer to the same year rows. */
  lemma SameReprSameYearRows(db: Store, s1: int, s2: int)
    requires YearsUnique(db.years) && YrNotNull(db.years)
    requires s1 in db.seasons && s2 in db.seasons
    requires SeasonText(db, s1).Some? && SeasonText(db, s1) == SeasonText(db, s2)
    ensures db.seasons[s1] == db.seasons[s2]
  {
    NamesAgreeWhenYrNotNull(db, s1);
    NamesAgreeWhenYrNotNull(db, s2);
    var (a, b) := SeasonYears(db, s1).value;
    var (c, d) := SeasonYears(db, s2).value;
    ReprDeterminesYears(a, b, c, d);
    SamePropertyNameSameYearRows(db, s1, s2);
  }

  // ---------------------------------------------------------------------------
  // `yr` as declared: nullable

  /** A year row with a NULL `yr` makes the two forms of `name` disagree: the
      property gives "None", the column is NULL. */
  lemma NullYearNameDisagrees()
    ensures var db := Empty.(years := map[1 := Year(None)], seasons := map[1 := Season(Some(1), Some(1))]);
      && SeasonName(db, 1) == Some("None")
      && SeasonNameColumn(db, 1) == None
  {
    var db := Empty.(years := map[1 := Year(None)], seasons := map[1 := Season(Some(1), Some(1))]);
    assert YearRowOf(db.years, Some(1)) == Some(Year(None));
  }

  /** The UNIQUE constraint admits any number of NULL years, so two different
      seasons of such years get the same `name` property. */
  lemma NullYearNamesCollide()
    ensures var db := Empty.(years := map[1 := Year(None), 2 := Year(None)],
                             seasons := map[1 := Season(Some(1), Some(1)), 2 := Season(Some(2), Some(2))]);
      && YearsUnique(db.years)
      && SeasonName(db, 1) == SeasonName(db, 2) == Some("None")
      && db.seasons[1] != db.seasons[2]
  {
    var db := Empty.(years := map[1 := Year(None), 2 := Year(None)],
                     seasons := map[1 := Season(Some(1), Some(1)), 2 := Season(Some(2), Some(2))]);
    assert YearRowOf(db.years, Some(1)) == Some(Year(None));
    assert YearRowOf(db.years, Some(2)) == Some(Year(None));
  }

  // ---------------------------------------------------------------------------
  // `yr` declared NOT NULL

  /** Every stored year has a value. */
  predicate YrNotNull(years: map<int, Year>)
  {
    forall k :: k in years ==> years[k].yr.Some?
  }

  /** `Insert` with `yr` declared NOT NULL: a year row with a NULL `yr` whose
      values coerce fails the NOT NULL constraint, every other row is
      inserted as before. */
  function InsertYrNotNull(db: Store, row: Row): (r: Outcome)
    ensures row.YearRow? && row.year.yr.None? ==> r.Failed?
    ensures r.Ok? ==> r == Insert(db, row)
    ensures !(row.YearRow? && row.year.yr.None?) ==> r == Insert(db, row)
    ensures YrNotNull(db.years) && r.Ok? ==> YrNotNull(r.store.years)
  {
    if row.YearRow? && row.year.yr.None? then
      (if FitsInteger(row.id) then Failed(IntegrityError) else Insert(db, row))
    else
      var r := Insert(db, row);
      ApplyKeepsYears(db, row);
      r
  }

  /** With `yr` NOT NULL the two forms of `name` agree on every stored season. */
  lemma NamesAgreeWhenYrNotNull(db: Store, sid: int)
    requires YrNotNull(db.years)
    requires sid in db.seasons
    ensures SeasonNameColumn(db, sid) == SeasonName(db, sid)
  {
    var s := db.seasons[sid];
    if YearRowsLoad(db, sid) {
      var k := s.startYearId.value;
      assert k in db.years;
      assert db.years[k].yr.Some?;
      assert YearRowOf(db.years, s.startYearId).value == db.years[k];
      var e := s.endYearId.value;
      assert db.years[e].yr.Some?;
      assert YearRowOf(db.years, s.endYearId).value == db.years[e];
    }
    SeasonNameFormsAgree(db, sid);
  }

  /** With `yr` unique and NOT NULL, two seasons whose `name` properties load
      and agree refer to the same year rows. */
  lemma SamePropertyNameSameYearRows(db: Store, s1: int, s2: int)
    requires YearsUnique(db.years) && YrNotNull(db.years)
    requires s1 in db.seasons && s2 in db.seasons
    requires SeasonName(db, s1).Some? && SeasonName(db, s1) == SeasonName(db, s2)
    ensures db.seasons[s1] == db.seasons[s2]
  {
    NamesAgreeWhenYrNotNull(db, s1);
    NamesAgreeWhenYrNotNull(db, s2);
    SameNameSameYearRows(db, s1, s2);
  }
}
