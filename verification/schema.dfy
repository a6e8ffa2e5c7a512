/**
 The common schema: one datatype per table row, the column limits, the
 polymorphic identities of the match hierarchy, and the rows a caller asks
 the database to insert. Primary keys are not fields of the row datatypes:
 the store keys each table by them.
 */
module Schema {
  import opened Wrappers
  import opened Seasons

  /** The range of an `Integer` column (a 32-bit signed integer). */
  const IntegerMin: int := -0x8000_0000
  const IntegerMax: int := 0x7FFF_FFFF

  predicate FitsInteger(v: int)
  {
    IntegerMin <= v <= IntegerMax
  }

  /** A nullable `Integer` column: NULL, or a value in range. */
  predicate FitsNullable(k: Option<int>)
  {
    k.None? || FitsInteger(k.value)
  }

  /** A text fits a `varchar(n)` column when it has at most `n` characters or
      every character past the `n`-th is a space (those are cut off). */
  predicate TextFits(s: string, n: nat)
  {
    |s| <= n || forall i :: n <= i < |s| ==> s[i] == ' '
  }

  /** The value a `varchar(n)` column stores for a text that fits: the text
      itself, or its first `n` characters when only spaces follow them. */
  function VarcharValue(s: string, n: nat): (t: string)
    ensures |t| <= n
    ensures t <= s
    ensures |s| <= n ==> t == s
    ensures n < |s| ==> |t| == n
    ensures TextFits(s, n) ==> forall i :: |t| <= i < |s| ==> s[i] == ' '
  {
    if |s| <= n then s else s[..n]
  }

  /** Lengths of the `Unicode(n)` and `String(length=n)` columns, in characters. */
  const ConfederationNameLength: nat := 10
  const CountryNameLength: nat := 60
  const CompetitionNameLength: nat := 80
  const KnockoutRoundNameLength: nat := 40
  const GroupRoundNameLength: nat := 40
  const GroupLabelLength: nat := 2

  datatype Confederation = Confederation(name: string)

  datatype Country = Country(name: string, confederationId: Option<int>)

  /** `yr` is UNIQUE but nullable: NULL is `None`. */
  datatype Year = Year(yr: Option<int>)

  datatype Season = Season(startYearId: Option<int>, endYearId: Option<int>)

  /** The single-table `type` discriminator of competitions and the owner each kind adds. */
  datatype CompetitionKind =
    | Unspecified
    | Domestic(countryId: Option<int>)
    | International(confederationId: Option<int>)

  datatype Competition = Competition(name: string, level: int, kind: CompetitionKind)

  /** A row of `knockout_rounds` or of `group_rounds`. */
  datatype Round = Round(name: string)

  /** The mapped classes of the match hierarchy. */
  datatype Phase = Generic | Friendly | League | Group | Knockout

  /** The `polymorphic_identity` each class writes into the `phase` discriminator. */
  function Identity(p: Phase): string
  {
    match p
    case Generic => "matches"
    case Friendly => "friendly"
    case League => "league"
    case Group => "group"
    case Knockout => "knockout"
  }

  /** The discriminator-to-class lookup used when a base `matches` row is
      loaded: it finds the class whose identity is `phase`, if any. */
  function PhaseOf(phase: string): (p: Option<Phase>)
    ensures p.Some? ==> Identity(p.value) == phase
    ensures forall q: Phase :: Identity(q) == phase ==> p == Some(q)
  {
    if phase == "matches" then Some(Generic)
    else if phase == "friendly" then Some(Friendly)
    else if phase == "league" then Some(League)
    else if phase == "group" then Some(Group)
    else if phase == "knockout" then Some(Knockout)
    else None
  }

  /** A stored row of the base `matches` table. */
  datatype Match = Match(
    date: CalendarDate,
    homeGoals: int,
    awayGoals: int,
    phase: string,
    competitionId: Option<int>,
    seasonId: Option<int>)

  /** Stored rows of the joined subtype tables (their key is the base row's id). */
  datatype LeagueMatch = LeagueMatch(matchday: int)
  datatype GroupMatch = GroupMatch(matchday: int, group: string, groupRoundId: Option<int>)
  datatype KnockoutMatch = KnockoutMatch(matchday: int, extraTime: bool, koRoundId: Option<int>)

  datatype MatchShootout = MatchShootout(homeShootoutGoals: int, awayShootoutGoals: int)

  datatype Deduction = Deduction(
    date: CalendarDate,
    points: int,
    competitionId: Option<int>,
    seasonId: Option<int>)

  /** The subtype-specific attributes given when a match object is built;
      `None` is an argument left out, which takes the column default. */
  datatype MatchKind =
    | AnyMatch
    | FriendlyMatch
    | LeagueMatchOf(matchday: int)
    | GroupMatchOf(matchday: int, group: string, groupRoundId: Option<int>)
    | KnockoutMatchOf(matchday: int, extraTime: Option<bool>, koRoundId: Option<int>)

  function PhaseOfKind(k: MatchKind): Phase
  {
    match k
    case AnyMatch => Generic
    case FriendlyMatch => Friendly
    case LeagueMatchOf(_) => League
    case GroupMatchOf(_, _, _) => Group
    case KnockoutMatchOf(_, _, _) => Knockout
  }

  /** A match object as built by a caller, before it is flushed. */
  datatype MatchSpec = MatchSpec(
    date: CalendarDate,
    homeGoals: Option<int>,
    awayGoals: Option<int>,
    competitionId: Option<int>,
    seasonId: Option<int>,
    kind: MatchKind)

  datatype ShootoutSpec = ShootoutSpec(homeShootoutGoals: Option<int>, awayShootoutGoals: Option<int>)

  /** Goal columns default to 0. */
  function HomeGoals(m: MatchSpec): int { m.homeGoals.GetOr(0) }
  function AwayGoals(m: MatchSpec): int { m.awayGoals.GetOr(0) }
  function HomeShootoutGoals(s: ShootoutSpec): int { s.homeShootoutGoals.GetOr(0) }
  function AwayShootoutGoals(s: ShootoutSpec): int { s.awayShootoutGoals.GetOr(0) }

  /** One object added to the session, with its primary key. */
  datatype Row =
    | ConfederationRow(id: int, confederation: Confederation)
    | CountryRow(id: int, country: Country)
    | YearRow(id: int, year: Year)
    | SeasonRow(id: int, season: Season)
    | CompetitionRow(id: int, competition: Competition)
    | KnockoutRoundRow(id: int, round: Round)
    | GroupRoundRow(id: int, round: Round)
    | MatchRow(id: int, spec: MatchSpec)
    | ShootoutRow(id: int, shootout: ShootoutSpec)
    | DeductionRow(id: int, deduction: Deduction)

  /** The two error classes a failed commit raises. */
  datatype DbError =
    | DataError       // a value does not fit its column's type or length
    | IntegrityError  // a CHECK, UNIQUE, primary-key or foreign-key constraint fails
}
