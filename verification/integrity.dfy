/**
 The integrity the database keeps for the common schema, stated as one
 predicate over the store, and the proof that every committed insert keeps
 it: stored names fit their columns, goal counts are non-negative, `yr`
 values are unique, foreign keys resolve, and the joined-table inheritance
 of matches holds in both directions (a subtype row sits under the id of a
 base row carrying that subtype's phase, and a base row with a subtype phase
 has its subtype row). Each part reads only the tables it names, so an
 insert into one table leaves the other parts untouched.
 */
module Integrity {
  import opened Wrappers
  import opened Schema
  import opened Store

  // Column lengths of stored rows

  predicate ConfederationNamesFit(t: map<int, Confederation>)
  {
    forall k :: k in t ==> |t[k].name| <= ConfederationNameLength
  }

  predicate CountryNamesFit(t: map<int, Country>)
  {
    forall k :: k in t ==> |t[k].name| <= CountryNameLength
  }

  predicate CompetitionNamesFit(t: map<int, Competition>)
  {
    forall k :: k in t ==> |t[k].name| <= CompetitionNameLength
  }

  predicate RoundNamesFit(t: map<int, Round>, length: nat)
  {
    forall k :: k in t ==> |t[k].name| <= length
  }

  predicate GroupLabelsFit(t: map<int, GroupMatch>)
  {
    forall k :: k in t ==> |t[k].group| <= GroupLabelLength
  }

  // CHECK and UNIQUE constraints

  /** `nonneg_home_goals` and `nonneg_away_goals`. */
  predicate GoalsNonNegative(t: map<int, Match>)
  {
    forall k :: k in t ==> t[k].homeGoals >= 0 && t[k].awayGoals >= 0
  }

  /** `nonneg_home_shootout` and `nonneg_away_shootout`. */
  predicate ShootoutGoalsNonNegative(t: map<int, MatchShootout>)
  {
    forall k :: k in t ==> t[k].homeShootoutGoals >= 0 && t[k].awayShootoutGoals >= 0
  }

  /** The UNIQUE constraint on `years.yr`: NULLs are never equal to each
      other, so any number of rows may have a NULL `yr`. */
  predicate YearsUnique(t: map<int, Year>)
  {
    forall j, k :: j in t && k in t && t[j].yr.Some? && t[j].yr == t[k].yr ==> j == k
  }

  // Foreign keys

  predicate CountriesResolve(t: map<int, Country>, confederations: set<int>)
  {
    forall k :: k in t ==> Resolves(t[k].confederationId, confederations)
  }

  predicate SeasonsResolve(t: map<int, Season>, years: set<int>)
  {
    forall k :: k in t ==> Resolves(t[k].startYearId, years) && Resolves(t[k].endYearId, years)
  }

  predicate CompetitionsResolve(t: map<int, Competition>, countries: set<int>, confederations: set<int>)
  {
    forall k :: k in t ==> OwnerIn(t[k].kind, countries, confederations)
  }

  predicate MatchesResolve(t: map<int, Match>, competitions: set<int>, seasons: set<int>)
  {
    forall k :: k in t ==> Resolves(t[k].competitionId, competitions) && Resolves(t[k].seasonId, seasons)
  }

  predicate GroupMatchesResolve(t: map<int, GroupMatch>, groupRounds: set<int>)
  {
    forall k :: k in t ==> Resolves(t[k].groupRoundId, groupRounds)
  }

  predicate KnockoutMatchesResolve(t: map<int, KnockoutMatch>, knockoutRounds: set<int>)
  {
    forall k :: k in t ==> Resolves(t[k].koRoundId, knockoutRounds)
  }

  predicate DeductionsResolve(t: map<int, Deduction>, competitions: set<int>, seasons: set<int>)
  {
    forall k :: k in t ==> Resolves(t[k].competitionId, competitions) && Resolves(t[k].seasonId, seasons)
  }

  // Joined-table inheritance

  /** A base row's phase names a mapped class, and a subtype class has its row under the same id. */
  predicate SubtypeRowPresent(
    phase: string, k: int,
    friendly: set<int>, league: map<int, LeagueMatch>, group: map<int, GroupMatch>, knockout: map<int, KnockoutMatch>)
  {
    match PhaseOf(phase)
    case None => false
    case Some(Generic) => true
    case Some(Friendly) => k in friendly
    case Some(League) => k in league
    case Some(Group) => k in group
    case Some(Knockout) => k in knockout
  }

  predicate JoinedTables(
    matches: map<int, Match>,
    friendly: set<int>, league: map<int, LeagueMatch>, group: map<int, GroupMatch>, knockout: map<int, KnockoutMatch>)
  {
    && (forall k :: k in friendly ==> k in matches && matches[k].phase == Identity(Friendly))
    && (forall k :: k in league ==> k in matches && matches[k].phase == Identity(League))
    && (forall k :: k in group ==> k in matches && matches[k].phase == Identity(Group))
    && (forall k :: k in knockout ==> k in matches && matches[k].phase == Identity(Knockout))
    && (forall k :: k in matches ==> SubtypeRowPresent(matches[k].phase, k, friendly, league, group, knockout))
  }

  /** The parts of consistency that read only the parent tables. */
  predicate ParentTablesConsistent(
    confederations: map<int, Confederation>, countries: map<int, Country>, years: map<int, Year>,
    seasons: map<int, Season>, competitions: map<int, Competition>,
    knockoutRounds: map<int, Round>, groupRounds: map<int, Round>)
  {
    && ConfederationNamesFit(confederations)
    && CountryNamesFit(countries)
    && CompetitionNamesFit(competitions)
    && RoundNamesFit(knockoutRounds, KnockoutRoundNameLength)
    && RoundNamesFit(groupRounds, GroupRoundNameLength)
    && YearsUnique(years)
    && CountriesResolve(countries, confederations.Keys)
    && SeasonsResolve(seasons, years.Keys)
    && CompetitionsResolve(competitions, countries.Keys, confederations.Keys)
  }

  /** The parts of consistency that read the match tables and deductions,
      given the keys of the parent tables they refer to. */
  predicate MatchTablesConsistent(
    matches: map<int, Match>,
    friendly: set<int>, league: map<int, LeagueMatch>, group: map<int, GroupMatch>, knockout: map<int, KnockoutMatch>,
    shootouts: map<int, MatchShootout>, deductions: map<int, Deduction>,
    competitionKeys: set<int>, seasonKeys: set<int>, groupRoundKeys: set<int>, knockoutRoundKeys: set<int>)
  {
    && GroupLabelsFit(group)
    && GoalsNonNegative(matches)
    && ShootoutGoalsNonNegative(shootouts)
    && MatchesResolve(matches, competitionKeys, seasonKeys)
    && GroupMatchesResolve(group, groupRoundKeys)
    && KnockoutMatchesResolve(knockout, knockoutRoundKeys)
    && shootouts.Keys <= matches.Keys
    && DeductionsResolve(deductions, competitionKeys, seasonKeys)
    && JoinedTables(matches, friendly, league, group, knockout)
  }

  predicate ParentsConsistent(db: Store)
  {
    ParentTablesConsistent(
      db.confederations, db.countries, db.years, db.seasons, db.competitions, db.knockoutRounds, db.groupRounds)
  }

  predicate Consistent(db: Store)
  {
    && ParentsConsistent(db)
    && MatchTablesConsistent(
         db.matches, db.friendlyMatches, db.leagueMatches, db.groupMatches, db.knockoutMatches,
         db.shootouts, db.deductions,
         db.competitions.Keys, db.seasons.Keys, db.groupRounds.Keys, db.knockoutRounds.Keys)
  }

  lemma EmptyConsistent()
    ensures Consistent(Empty)
  {
  }

  /** Every committed insert keeps the store consistent. */
  lemma InsertPreservesConsistency(db: Store, row: Row)
    requires Consistent(db)
    requires Insert(db, row).Ok?
    ensures Consistent(Insert(db, row).store)
  {
    assert Admissible(db, row);
    assert Insert(db, row).store == Apply(db, row);
    if row.MatchRow? {
      MatchInsertConsistent(db, row.id, row.spec);
    } else if row.ShootoutRow? || row.DeductionRow? {
      DependentInsertConsistent(db, row);
    } else {
      ParentInsertConsistent(db, row);
    }
  }

  /** Growing the parent key sets keeps the match tables consistent. */
  lemma MatchTablesWiden(
    matches: map<int, Match>,
    friendly: set<int>, league: map<int, LeagueMatch>, group: map<int, GroupMatch>, knockout: map<int, KnockoutMatch>,
    shootouts: map<int, MatchShootout>, deductions: map<int, Deduction>,
    c1: set<int>, s1: set<int>, g1: set<int>, k1: set<int>,
    c2: set<int>, s2: set<int>, g2: set<int>, k2: set<int>)
    requires MatchTablesConsistent(matches, friendly, league, group, knockout, shootouts, deductions, c1, s1, g1, k1)
    requires c1 <= c2 && s1 <= s2 && g1 <= g2 && k1 <= k2
    ensures MatchTablesConsistent(matches, friendly, league, group, knockout, shootouts, deductions, c2, s2, g2, k2)
  {
  }

  /** An insert into a parent table: the parent parts gain one valid row and
      the match tables only see their key sets grow. */
  lemma ParentInsertConsistent(db: Store, row: Row)
    requires Consistent(db)
    requires Admissible(db, row)
    requires !row.MatchRow? && !row.ShootoutRow? && !row.DeductionRow?
    ensures Consistent(Apply(db, row))
  {
    var after := Apply(db, row);
    assert db.competitions.Keys <= after.competitions.Keys;
    assert db.seasons.Keys <= after.seasons.Keys;
    assert db.groupRounds.Keys <= after.groupRounds.Keys;
    assert db.knockoutRounds.Keys <= after.knockoutRounds.Keys;
    MatchTablesWiden(
      db.matches, db.friendlyMatches, db.leagueMatches, db.groupMatches, db.knockoutMatches,
      db.shootouts, db.deductions,
      db.competitions.Keys, db.seasons.Keys, db.groupRounds.Keys, db.knockoutRounds.Keys,
      after.competitions.Keys, after.seasons.Keys, after.groupRounds.Keys, after.knockoutRounds.Keys);
    ParentTablesGrow(db, row);
  }

  lemma ParentTablesGrow(db: Store, row: Row)
    requires Consistent(db)
    requires Admissible(db, row)
    requires !row.MatchRow? && !row.ShootoutRow? && !row.DeductionRow?
    ensures ParentsConsistent(Apply(db, row))
  {
    match row
    case ConfederationRow(id, c) => ConfederationAdded(db, id, c);
    case CountryRow(id, c) => CountryAdded(db, id, c);
    case YearRow(id, y) => YearAdded(db, id, y);
    case SeasonRow(id, s) => SeasonAdded(db, id, s);
    case CompetitionRow(id, c) => CompetitionAdded(db, id, c);
    case KnockoutRoundRow(id, r) => KnockoutRoundAdded(db, id, r);
    case GroupRoundRow(id, r) => GroupRoundAdded(db, id, r);
  }

  lemma ConfederationAdded(db: Store, id: int, c: Confederation)
    requires ParentsConsistent(db)
    ensures ParentsConsistent(Apply(db, ConfederationRow(id, c)))
  {
    CompetitionsWiden(db.competitions, db.countries.Keys, db.confederations.Keys,
                      db.countries.Keys, db.confederations[id := StoredConfederation(c)].Keys);
  }

  lemma CountryAdded(db: Store, id: int, c: Country)
    requires ParentsConsistent(db)
    requires Resolves(c.confederationId, db.confederations.Keys)
    ensures ParentsConsistent(Apply(db, CountryRow(id, c)))
  {
    CompetitionsWiden(db.competitions, db.countries.Keys, db.confederations.Keys,
                      db.countries[id := StoredCountry(c)].Keys, db.confederations.Keys);
  }

  lemma YearAdded(db: Store, id: int, y: Year)
    requires ParentsConsistent(db)
    requires id !in db.years && (y.yr.Some? ==> !YearTaken(db, y.yr.value))
    ensures ParentsConsistent(Apply(db, YearRow(id, y)))
  {
    assert y.yr.Some? ==> forall k :: k in db.years ==> db.years[k].yr != y.yr;
    YearsUniqueAdd(db.years, id, y);
  }

  lemma SeasonAdded(db: Store, id: int, s: Season)
    requires ParentsConsistent(db)
    requires Resolves(s.startYearId, db.years.Keys) && Resolves(s.endYearId, db.years.Keys)
    ensures ParentsConsistent(Apply(db, SeasonRow(id, s)))
  {
  }

  lemma CompetitionAdded(db: Store, id: int, c: Competition)
    requires ParentsConsistent(db)
    requires OwnerResolves(db, c.kind)
    ensures ParentsConsistent(Apply(db, CompetitionRow(id, c)))
  {
  }

  lemma KnockoutRoundAdded(db: Store, id: int, r: Round)
    requires ParentsConsistent(db)
    ensures ParentsConsistent(Apply(db, KnockoutRoundRow(id, r)))
  {
  }

  lemma GroupRoundAdded(db: Store, id: int, r: Round)
    requires ParentsConsistent(db)
    ensures ParentsConsistent(Apply(db, GroupRoundRow(id, r)))
  {
  }

  lemma CompetitionsWiden(
    competitions: map<int, Competition>, countries1: set<int>, confederations1: set<int>,
    countries2: set<int>, confederations2: set<int>)
    requires CompetitionsResolve(competitions, countries1, confederations1)
    requires countries1 <= countries2 && confederations1 <= confederations2
    ensures CompetitionsResolve(competitions, countries2, confederations2)
  {
    forall k | k in competitions
      ensures OwnerIn(competitions[k].kind, countries2, confederations2)
    {
      assert OwnerIn(competitions[k].kind, countries1, confederations1);
    }
  }

  /** A year whose value no stored year has, or whose value is NULL, keeps `yr` unique. */
  lemma YearsUniqueAdd(years: map<int, Year>, id: int, y: Year)
    requires YearsUnique(years)
    requires id !in years
    requires y.yr.Some? ==> forall k :: k in years ==> years[k].yr != y.yr
    ensures YearsUnique(years[id := y])
  {
  }

  /** An insert of a shootout or a deduction touches only its own table. */
  lemma DependentInsertConsistent(db: Store, row: Row)
    requires Consistent(db)
    requires Admissible(db, row)
    requires row.ShootoutRow? || row.DeductionRow?
    ensures Consistent(Apply(db, row))
  {
  }

  lemma MatchInsertConsistent(db: Store, id: int, m: MatchSpec)
    requires Consistent(db)
    requires Admissible(db, MatchRow(id, m))
    ensures Consistent(Apply(db, MatchRow(id, m)))
  {
    KindInsertConsistent(db, id, m, PhaseOfKind(m.kind));
  }

  lemma KindInsertConsistent(db: Store, id: int, m: MatchSpec, p: Phase)
    requires PhaseOfKind(m.kind) == p
    requires Consistent(db)
    requires Admissible(db, MatchRow(id, m))
    ensures Consistent(ApplyMatch(db, id, m))
  {
    var base := StoredMatch(m);
    assert base.homeGoals >= 0 && base.awayGoals >= 0;
    var (f, l, g, k) := (db.friendlyMatches, db.leagueMatches, db.groupMatches, db.knockoutMatches);
    var (c, s, gr, kr) := (db.competitions.Keys, db.seasons.Keys, db.groupRounds.Keys, db.knockoutRounds.Keys);
    match m.kind
    case AnyMatch =>
      assert base.phase == Identity(Generic);
      MatchTablesAdd(db.matches, f, l, g, k, db.shootouts, db.deductions, c, s, gr, kr, id, base, f, l, g, k);
    case FriendlyMatch =>
      assert base.phase == Identity(Friendly);
      MatchTablesAdd(db.matches, f, l, g, k, db.shootouts, db.deductions, c, s, gr, kr, id, base, f + {id}, l, g, k);
    case LeagueMatchOf(md) =>
      assert base.phase == Identity(League);
      MatchTablesAdd(db.matches, f, l, g, k, db.shootouts, db.deductions, c, s, gr, kr, id, base,
                     f, l[id := LeagueMatch(md)], g, k);
    case GroupMatchOf(md, letter, round) =>
      assert base.phase == Identity(Group);
      MatchTablesAdd(db.matches, f, l, g, k, db.shootouts, db.deductions, c, s, gr, kr, id, base,
                     f, l, g[id := StoredGroupMatch(md, letter, round)], k);
    case KnockoutMatchOf(md, et, round) =>
      assert base.phase == Identity(Knockout);
      MatchTablesAdd(db.matches, f, l, g, k, db.shootouts, db.deductions, c, s, gr, kr, id, base,
                     f, l, g, k[id := KnockoutMatch(md, et.GetOr(false), round)]);
  }

  /** Adding a base row together with the subtype row its phase calls for
      (and nothing else) keeps the match tables consistent. */
  lemma MatchTablesAdd(
    matches: map<int, Match>,
    friendly: set<int>, league: map<int, LeagueMatch>, group: map<int, GroupMatch>, knockout: map<int, KnockoutMatch>,
    shootouts: map<int, MatchShootout>, deductions: map<int, Deduction>,
    competitionKeys: set<int>, seasonKeys: set<int>, groupRoundKeys: set<int>, knockoutRoundKeys: set<int>,
    id: int, base: Match,
    friendly': set<int>, league': map<int, LeagueMatch>, group': map<int, GroupMatch>, knockout': map<int, KnockoutMatch>)
    requires MatchTablesConsistent(
               matches, friendly, league, group, knockout, shootouts, deductions,
               competitionKeys, seasonKeys, groupRoundKeys, knockoutRoundKeys)
    requires id !in matches
    requires base.homeGoals >= 0 && base.awayGoals >= 0
    requires Resolves(base.competitionId, competitionKeys) && Resolves(base.seasonId, seasonKeys)
    requires SubtypeAdded(base.phase, id, friendly, league, group, knockout, friendly', league', group', knockout')
    requires GroupLabelsFit(group') && GroupMatchesResolve(group', groupRoundKeys)
    requires KnockoutMatchesResolve(knockout', knockoutRoundKeys)
    ensures MatchTablesConsistent(
              matches[id := base], friendly', league', group', knockout', shootouts, deductions,
              competitionKeys, seasonKeys, groupRoundKeys, knockoutRoundKeys)
  {
    JoinedAdd(matches, friendly, league, group, knockout, id, base, friendly', league', group', knockout');
  }

  /** The subtype tables after adding base row `id` with discriminator `phase`:
      the one table of that phase gains `id`, the others are unchanged. */
  predicate SubtypeAdded(
    phase: string, id: int,
    friendly: set<int>, league: map<int, LeagueMatch>, group: map<int, GroupMatch>, knockout: map<int, KnockoutMatch>,
    friendly': set<int>, league': map<int, LeagueMatch>, group': map<int, GroupMatch>, knockout': map<int, KnockoutMatch>)
  {
    && PhaseOf(phase).Some?
    && (friendly' == if phase == Identity(Friendly) then friendly + {id} else friendly)
    && (league'.Keys == if phase == Identity(League) then league.Keys + {id} else league.Keys)
    && (group'.Keys == if phase == Identity(Group) then group.Keys + {id} else group.Keys)
    && (knockout'.Keys == if phase == Identity(Knockout) then knockout.Keys + {id} else knockout.Keys)
  }

  lemma JoinedAdd(
    matches: map<int, Match>,
    friendly: set<int>, league: map<int, LeagueMatch>, group: map<int, GroupMatch>, knockout: map<int, KnockoutMatch>,
    id: int, base: Match,
    friendly': set<int>, league': map<int, LeagueMatch>, group': map<int, GroupMatch>, knockout': map<int, KnockoutMatch>)
    requires JoinedTables(matches, friendly, league, group, knockout)
    requires id !in matches
    requires SubtypeAdded(base.phase, id, friendly, league, group, knockout, friendly', league', group', knockout')
    ensures JoinedTables(matches[id := base], friendly', league', group', knockout')
  {
    var after := matches[id := base];
    forall k | k in after
      ensures SubtypeRowPresent(after[k].phase, k, friendly', league', group', knockout')
    {
      if k != id {
        assert SubtypeRowPresent(matches[k].phase, k, friendly, league, group, knockout);
      }
    }
  }

  /** Joined-table identity, both directions: in a consistent store every base
      row loads as its subtype, and every subtype row loads through the base
      class under its own id. */
  lemma JoinedIdentity(db: Store, id: int)
    requires Consistent(db)
    ensures LoadMatch(db, id).Some? <==> id in db.matches
    ensures id in db.matches ==> LoadMatch(db, id).value.base == db.matches[id]
    ensures id in db.friendlyMatches ==> LoadMatch(db, id).value.detail == FriendlyDetail
    ensures id in db.leagueMatches ==> LoadMatch(db, id).value.detail == LeagueDetail(db.leagueMatches[id])
    ensures id in db.groupMatches ==> LoadMatch(db, id).value.detail == GroupDetail(db.groupMatches[id])
    ensures id in db.knockoutMatches ==> LoadMatch(db, id).value.detail == KnockoutDetail(db.knockoutMatches[id])
  {
    if id in db.matches {
      assert SubtypeRowPresent(db.matches[id].phase, id,
               db.friendlyMatches, db.leagueMatches, db.groupMatches, db.knockoutMatches);
      assert PhaseOf(Identity(Friendly)) == Some(Friendly);
      assert PhaseOf(Identity(League)) == Some(League);
      assert PhaseOf(Identity(Group)) == Some(Group);
      assert PhaseOf(Identity(Knockout)) == Some(Knockout);
    }
  }
}
