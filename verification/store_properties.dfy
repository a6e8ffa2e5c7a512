/**
 Consequences of `Insert` for the situations the schema's column types and
 constraints are there to catch: over-long names and group labels fail with a
 `DataError`, negative goal counts and a repeated `yr` fail with an
 `IntegrityError`, omitted goal and extra-time values take their defaults,
 and a subtype match is readable through the base class under its own id.
 */
module StoreProperties {
  import opened Wrappers
  import opened Schema
  import opened Store

  /** A name that does not fit its column (longer than the column, with a
      character other than a space past its length) is a `DataError`,
      whatever the rest of the row. */
  lemma OverlongNameRejected(db: Store, row: Row)
    requires
      || (row.ConfederationRow? && !TextFits(row.confederation.name, ConfederationNameLength))
      || (row.CountryRow? && !TextFits(row.country.name, CountryNameLength))
      || (row.CompetitionRow? && !TextFits(row.competition.name, CompetitionNameLength))
      || (row.KnockoutRoundRow? && !TextFits(row.round.name, KnockoutRoundNameLength))
      || (row.GroupRoundRow? && !TextFits(row.round.name, GroupRoundNameLength))
    ensures Insert(db, row) == Failed(DataError)
  {
    assert DataErrorFor(db, row);
  }

  /** The over-long names of the schema tests: 12, 64, 90, 50 and 65 characters. */
  lemma OverlongNameExamples(db: Store, id: int)
    ensures Insert(db, ConfederationRow(id, Confederation("ABCDEFGHIJKL"))) == Failed(DataError)
    ensures Insert(db, CountryRow(id, Country(
              "blahblahblahblahblahblahblahblahblahblahblahblahblahblahblahblah", None))) == Failed(DataError)
    ensures Insert(db, CompetitionRow(id, Competition(
              "leaguenameleaguenameleaguenameleaguenameleaguenameleaguenameleaguenameleaguenameleaguename",
              2, Unspecified))) == Failed(DataError)
    ensures Insert(db, GroupRoundRow(id, Round("grouproundgrouproundgrouproundgrouproundgroupround")))
              == Failed(DataError)
    ensures Insert(db, KnockoutRoundRow(id, Round(
              "knockoutroundknockoutroundknockoutroundknockoutroundknockoutround"))) == Failed(DataError)
  {
    var confederation := "ABCDEFGHIJKL";
    var country := "blahblahblahblahblahblahblahblahblahblahblahblahblahblahblahblah";
    var league := "leaguenameleaguenameleaguenameleaguenameleaguenameleaguenameleaguenameleaguenameleaguename";
    var group := "grouproundgrouproundgrouproundgrouproundgroupround";
    var knockout := "knockoutroundknockoutroundknockoutroundknockoutroundknockoutround";
    assert !TextFits(confederation, ConfederationNameLength) by { assert confederation[11] != ' '; }
    assert !TextFits(country, CountryNameLength) by { assert country[63] != ' '; }
    assert !TextFits(league, CompetitionNameLength) by { assert league[89] != ' '; }
    assert !TextFits(group, GroupRoundNameLength) by { assert group[49] != ' '; }
    assert !TextFits(knockout, KnockoutRoundNameLength) by { assert knockout[64] != ' '; }
    OverlongNameRejected(db, ConfederationRow(id, Confederation(confederation)));
    OverlongNameRejected(db, CountryRow(id, Country(country, None)));
    OverlongNameRejected(db, CompetitionRow(id, Competition(league, 2, Unspecified)));
    OverlongNameRejected(db, GroupRoundRow(id, Round(group)));
    OverlongNameRejected(db, KnockoutRoundRow(id, Round(knockout)));
  }

  /** A group label that does not fit its two characters is a `DataError`
      once the base row of the group match has been accepted. */
  lemma OverlongGroupRejected(db: Store, id: int, m: MatchSpec)
    requires m.kind.GroupMatchOf? && !TextFits(m.kind.group, GroupLabelLength)
    requires MatchBaseFits(id, m) && MatchChecks(m) && MatchBaseKeys(db, id, m)
    ensures Insert(db, MatchRow(id, m)) == Failed(DataError)
  {
    assert DataErrorFor(db, MatchRow(id, m));
  }

  /** A negative home or away goal count breaks `nonneg_home_goals` or
      `nonneg_away_goals`, for every kind of match. */
  lemma NegativeGoalsRejected(db: Store, id: int, m: MatchSpec)
    requires MatchBaseFits(id, m)
    requires HomeGoals(m) < 0 || AwayGoals(m) < 0
    ensures Insert(db, MatchRow(id, m)) == Failed(IntegrityError)
  {
    assert !Admissible(db, MatchRow(id, m));
    assert !DataErrorFor(db, MatchRow(id, m));
  }

  /** A negative shootout goal count breaks `nonneg_home_shootout` or `nonneg_away_shootout`. */
  lemma NegativeShootoutGoalsRejected(db: Store, id: int, s: ShootoutSpec)
    requires FitsInteger(id) && FitsInteger(HomeShootoutGoals(s)) && FitsInteger(AwayShootoutGoals(s))
    requires HomeShootoutGoals(s) < 0 || AwayShootoutGoals(s) < 0
    ensures Insert(db, ShootoutRow(id, s)) == Failed(IntegrityError)
  {
    assert !Admissible(db, ShootoutRow(id, s));
    assert !DataErrorFor(db, ShootoutRow(id, s));
  }

  /** Over-long text whose excess is all spaces is cut to the column's length
      and stored, as the `varchar` type prescribes. */
  lemma TrailingSpacesTruncated(db: Store, id: int, c: Confederation)
    requires FitsInteger(id) && id !in db.confederations
    requires |c.name| > ConfederationNameLength
    requires forall i :: ConfederationNameLength <= i < |c.name| ==> c.name[i] == ' '
    ensures Insert(db, ConfederationRow(id, c)).Ok?
    ensures Insert(db, ConfederationRow(id, c)).store.confederations[id].name == c.name[..ConfederationNameLength]
  {
    assert Contains(Insert(db, ConfederationRow(id, c)).store, ConfederationRow(id, c));
  }

  /** "UEFA" followed by seven spaces is stored as "UEFA" followed by six. */
  lemma TrailingSpacesExample(id: int)
    requires FitsInteger(id)
    ensures Insert(Empty, ConfederationRow(id, Confederation("UEFA       "))).Ok?
    ensures Insert(Empty, ConfederationRow(id, Confederation("UEFA       "))).store.confederations[id].name
              == "UEFA      "
  {
    TrailingSpacesTruncated(Empty, id, Confederation("UEFA       "));
    assert "UEFA       "[..ConfederationNameLength] == "UEFA      ";
  }

  /** A year whose `yr` is already stored breaks the UNIQUE constraint. */
  lemma DuplicateYearRejected(db: Store, id: int, y: Year)
    requires FitsInteger(id) && FitsNullable(y.yr)
    requires y.yr.Some? && YearTaken(db, y.yr.value)
    ensures Insert(db, YearRow(id, y)) == Failed(IntegrityError)
  {
    assert !Admissible(db, YearRow(id, y));
    assert !DataErrorFor(db, YearRow(id, y));
  }

  /** A year with a fresh id is accepted when its `yr` is fresh or NULL; a
      non-NULL `yr` is then taken. */
  lemma FreshYearAccepted(db: Store, id: int, y: Year)
    requires FitsInteger(id) && FitsNullable(y.yr)
    requires id !in db.years && (y.yr.Some? ==> !YearTaken(db, y.yr.value))
    ensures Insert(db, YearRow(id, y)).Ok?
    ensures y.yr.Some? ==> YearTaken(Insert(db, YearRow(id, y)).store, y.yr.value)
  {
    var after := Insert(db, YearRow(id, y)).store;
    assert Contains(after, YearRow(id, y));
    assert after.years[id].yr == y.yr;
  }

  /** The UNIQUE constraint does not compare NULLs: two years with a NULL `yr`
      are both accepted. */
  lemma NullYearsAccepted()
    ensures Insert(Empty, YearRow(1, Year(None))).Ok?
    ensures Insert(Insert(Empty, YearRow(1, Year(None))).store, YearRow(2, Year(None))).Ok?
  {
    FreshYearAccepted(Empty, 1, Year(None));
    var after := Insert(Empty, YearRow(1, Year(None))).store;
    assert Remove(after, YearRow(1, Year(None))) == Empty;
    assert after.years.Keys == {1};
    FreshYearAccepted(after, 2, Year(None));
  }

  /** Omitted goal counts are stored as 0 and an omitted `extra_time` as
      false; the stored `phase` is the class's polymorphic identity. */
  lemma DefaultsApplied(db: Store, id: int, m: MatchSpec)
    requires Insert(db, MatchRow(id, m)).Ok?
    ensures var loaded := LoadMatch(Insert(db, MatchRow(id, m)).store, id);
      && loaded.Some?
      && (m.homeGoals.None? ==> loaded.value.base.homeGoals == 0)
      && (m.awayGoals.None? ==> loaded.value.base.awayGoals == 0)
      && loaded.value.base.phase == Identity(PhaseOfKind(m.kind))
      && (m.kind.KnockoutMatchOf? && m.kind.extraTime.None? ==> loaded.value.detail.knockout.extraTime == false)
  {
    assert Contains(Insert(db, MatchRow(id, m)).store, MatchRow(id, m));
  }

  /** A committed subtype match has its base row and its subtype row under the
      same id, and the base row's `phase` names the subtype. */
  lemma SubtypeSharesId(db: Store, id: int, m: MatchSpec)
    requires Insert(db, MatchRow(id, m)).Ok?
    ensures var after := Insert(db, MatchRow(id, m)).store;
      && id in after.matches
      && after.matches[id].phase == Identity(PhaseOfKind(m.kind))
      && (m.kind.FriendlyMatch? ==> id in after.friendlyMatches)
      && (m.kind.LeagueMatchOf? ==> id in after.leagueMatches)
      && (m.kind.GroupMatchOf? ==> id in after.groupMatches)
      && (m.kind.KnockoutMatchOf? ==> id in after.knockoutMatches)
  {
    var after := Insert(db, MatchRow(id, m)).store;
    assert Contains(after, MatchRow(id, m));
    LoadedRowsPresent(after, id);
  }

  /** A match loads only when its base row and the subtype row its detail shows are stored. */
  lemma LoadedRowsPresent(db: Store, id: int)
    requires LoadMatch(db, id).Some?
    ensures id in db.matches
    ensures LoadMatch(db, id).value.base == db.matches[id]
    ensures LoadMatch(db, id).value.detail.FriendlyDetail? ==> id in db.friendlyMatches
    ensures LoadMatch(db, id).value.detail.LeagueDetail? ==> id in db.leagueMatches
    ensures LoadMatch(db, id).value.detail.GroupDetail? ==> id in db.groupMatches
    ensures LoadMatch(db, id).value.detail.KnockoutDetail? ==> id in db.knockoutMatches
  {
  }

  /** A shootout is accepted only for a stored match, under that match's id. */
  lemma ShootoutNeedsMatch(db: Store, id: int, s: ShootoutSpec)
    requires Insert(db, ShootoutRow(id, s)).Ok?
    ensures id in db.matches
    ensures Insert(db, ShootoutRow(id, s)).store.matches == db.matches
  {
    assert Admissible(db, ShootoutRow(id, s));
  }
}
