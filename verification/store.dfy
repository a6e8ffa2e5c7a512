/**
 The tables of the common schema as an immutable store, and the insertion of
 one object as the database performs it at commit: each INSERT statement first
 coerces its values to the column types (an over-long text is cut to its
 column's length when the excess is all spaces and is otherwise a
 `DataError`, as is an out-of-range integer), then checks the CHECK,
 primary-key, UNIQUE and foreign-key constraints (any failure is an
 `IntegrityError`). A match of a subtype is two statements, the base `matches`
 row first and then the row of its subtype table under the same id.
 */
module Store {
  import opened Wrappers
  import opened Schema

  /** Every table, keyed by primary key. `friendly_matches` has no column but its key. */
  datatype Store = Store(
    confederations: map<int, Confederation>,
    countries: map<int, Country>,
    years: map<int, Year>,
    seasons: map<int, Season>,
    competitions: map<int, Competition>,
    knockoutRounds: map<int, Round>,
    groupRounds: map<int, Round>,
    matches: map<int, Match>,
    friendlyMatches: set<int>,
    leagueMatches: map<int, LeagueMatch>,
    groupMatches: map<int, GroupMatch>,
    knockoutMatches: map<int, KnockoutMatch>,
    shootouts: map<int, MatchShootout>,
    deductions: map<int, Deduction>)

  const Empty: Store :=
    Store(map[], map[], map[], map[], map[], map[], map[], map[], {}, map[], map[], map[], map[], map[])

  datatype Outcome = Ok(store: Store) | Failed(error: DbError)

  /** A nullable foreign key is satisfied when it is NULL or names an existing row. */
  predicate Resolves(k: Option<int>, keys: set<int>)
  {
    k.None? || k.value in keys
  }

  /** Some stored year has the (non-NULL) value `yr`. */
  predicate YearTaken(db: Store, yr: int)
  {
    exists k :: k in db.years && db.years[k].yr == Some(yr)
  }

  /** The owner a competition kind adds: a country or a confederation. */
  function OwnerId(kind: CompetitionKind): Option<int>
  {
    match kind
    case Unspecified => None
    case Domestic(c) => c
    case International(c) => c
  }

  /** The owner of a competition exists among the given countries or confederations. */
  predicate OwnerIn(kind: CompetitionKind, countries: set<int>, confederations: set<int>)
  {
    match kind
    case Unspecified => true
    case Domestic(c) => Resolves(c, countries)
    case International(c) => Resolves(c, confederations)
  }

  predicate OwnerResolves(db: Store, kind: CompetitionKind)
  {
    OwnerIn(kind, db.countries.Keys, db.confederations.Keys)
  }

  // ---------------------------------------------------------------------------
  // Row-level admission rules

  predicate MatchBaseFits(id: int, m: MatchSpec)
  {
    && FitsInteger(id)
    && FitsInteger(HomeGoals(m))
    && FitsInteger(AwayGoals(m))
    && FitsNullable(m.competitionId)
    && FitsNullable(m.seasonId)
  }

  predicate MatchKindFits(id: int, k: MatchKind)
  {
    match k
    case AnyMatch => true
    case FriendlyMatch => FitsInteger(id)
    case LeagueMatchOf(md) => FitsInteger(id) && FitsInteger(md)
    case GroupMatchOf(md, g, gr) =>
      FitsInteger(id) && FitsInteger(md) && TextFits(g, GroupLabelLength) && FitsNullable(gr)
    case KnockoutMatchOf(md, _, ko) => FitsInteger(id) && FitsInteger(md) && FitsNullable(ko)
  }

  /** The `nonneg_home_goals` and `nonneg_away_goals` CHECK constraints. */
  predicate MatchChecks(m: MatchSpec)
  {
    HomeGoals(m) >= 0 && AwayGoals(m) >= 0
  }

  predicate MatchBaseKeys(db: Store, id: int, m: MatchSpec)
  {
    && id !in db.matches
    && Resolves(m.competitionId, db.competitions.Keys)
    && Resolves(m.seasonId, db.seasons.Keys)
  }

  predicate MatchKindKeys(db: Store, id: int, k: MatchKind)
  {
    match k
    case AnyMatch => true
    case FriendlyMatch => id !in db.friendlyMatches
    case LeagueMatchOf(_) => id !in db.leagueMatches
    case GroupMatchOf(_, _, gr) => id !in db.groupMatches && Resolves(gr, db.groupRounds.Keys)
    case KnockoutMatchOf(_, _, ko) => id !in db.knockoutMatches && Resolves(ko, db.knockoutRounds.Keys)
  }

  /** Every value of the row fits its column: text lengths and the `Integer` range. */
  predicate RowFits(row: Row)
  {
    match row
    case ConfederationRow(id, c) => FitsInteger(id) && TextFits(c.name, ConfederationNameLength)
    case CountryRow(id, c) =>
      FitsInteger(id) && TextFits(c.name, CountryNameLength) && FitsNullable(c.confederationId)
    case YearRow(id, y) => FitsInteger(id) && FitsNullable(y.yr)
    case SeasonRow(id, s) => FitsInteger(id) && FitsNullable(s.startYearId) && FitsNullable(s.endYearId)
    case CompetitionRow(id, c) =>
      && FitsInteger(id) && TextFits(c.name, CompetitionNameLength)
      && FitsInteger(c.level) && FitsNullable(OwnerId(c.kind))
    case KnockoutRoundRow(id, r) => FitsInteger(id) && TextFits(r.name, KnockoutRoundNameLength)
    case GroupRoundRow(id, r) => FitsInteger(id) && TextFits(r.name, GroupRoundNameLength)
    case MatchRow(id, m) => MatchBaseFits(id, m) && MatchKindFits(id, m.kind)
    case ShootoutRow(id, s) =>
      FitsInteger(id) && FitsInteger(HomeShootoutGoals(s)) && FitsInteger(AwayShootoutGoals(s))
    case DeductionRow(id, d) =>
      FitsInteger(id) && FitsInteger(d.points) && FitsNullable(d.competitionId) && FitsNullable(d.seasonId)
  }

  /** The CHECK constraints: non-negative goals and shootout goals. */
  predicate RowChecks(row: Row)
  {
    match row
    case MatchRow(_, m) => MatchChecks(m)
    case ShootoutRow(_, s) => HomeShootoutGoals(s) >= 0 && AwayShootoutGoals(s) >= 0
    case _ => true
  }

  /** The key constraints: a fresh primary key, a fresh `yr` (NULL is never a
      duplicate), resolving foreign keys. */
  predicate RowKeys(db: Store, row: Row)
  {
    match row
    case ConfederationRow(id, _) => id !in db.confederations
    case CountryRow(id, c) => id !in db.countries && Resolves(c.confederationId, db.confederations.Keys)
    case YearRow(id, y) => id !in db.years && (y.yr.Some? ==> !YearTaken(db, y.yr.value))
    case SeasonRow(id, s) =>
      id !in db.seasons && Resolves(s.startYearId, db.years.Keys) && Resolves(s.endYearId, db.years.Keys)
    case CompetitionRow(id, c) => id !in db.competitions && OwnerResolves(db, c.kind)
    case KnockoutRoundRow(id, _) => id !in db.knockoutRounds
    case GroupRoundRow(id, _) => id !in db.groupRounds
    case MatchRow(id, m) => MatchBaseKeys(db, id, m) && MatchKindKeys(db, id, m.kind)
    case ShootoutRow(id, _) => id !in db.shootouts && id in db.matches
    case DeductionRow(id, d) =>
      && id !in db.deductions
      && Resolves(d.competitionId, db.competitions.Keys)
      && Resolves(d.seasonId, db.seasons.Keys)
  }

  predicate Admissible(db: Store, row: Row)
  {
    RowFits(row) && RowChecks(row) && RowKeys(db, row)
  }

  /** When the commit fails with a `DataError`: a value does not fit, except
      that a subtype match whose base row already fails its constraints stops
      with that `IntegrityError` before the subtype row is sent. */
  predicate DataErrorFor(db: Store, row: Row)
  {
    match row
    case MatchRow(id, m) =>
      !MatchBaseFits(id, m) || (MatchChecks(m) && MatchBaseKeys(db, id, m) && !MatchKindFits(id, m.kind))
    case _ => !RowFits(row)
  }

  // ---------------------------------------------------------------------------
  // Statement execution

  /** A key constraint as the database checks it: a primary-key or UNIQUE
      value must be absent from the values already stored, a foreign-key value
      must be present among the keys of the table it refers to. */
  datatype KeyCheck = Absent(value: int, stored: set<int>) | Present(value: int, stored: set<int>)

  predicate KeyCheckHolds(c: KeyCheck)
  {
    match c
    case Absent(v, stored) => v !in stored
    case Present(v, stored) => v in stored
  }

  /** One INSERT into one table: its text values with their column lengths,
      its integer values, the operands of its non-negativity CHECKs, and its
      key constraints. */
  datatype Statement = Statement(
    texts: seq<(string, nat)>,
    integers: seq<int>,
    nonNegative: seq<int>,
    keys: seq<KeyCheck>)

  predicate TextsFit(texts: seq<(string, nat)>)
  {
    forall i :: 0 <= i < |texts| ==> TextFits(texts[i].0, texts[i].1)
  }

  predicate ValuesFit(s: Statement)
  {
    TextsFit(s.texts) && AllFit(s.integers)
  }

  predicate AllNonNegative(xs: seq<int>)
  {
    forall i :: 0 <= i < |xs| ==> xs[i] >= 0
  }

  predicate AllFit(xs: seq<int>)
  {
    forall i :: 0 <= i < |xs| ==> FitsInteger(xs[i])
  }

  predicate AllKeysHold(cs: seq<KeyCheck>)
  {
    forall i :: 0 <= i < |cs| ==> KeyCheckHolds(cs[i])
  }

  predicate ConstraintsHold(s: Statement)
  {
    AllNonNegative(s.nonNegative) && AllKeysHold(s.keys)
  }

  /** Value coercion comes before constraint checking. */
  function Execute(s: Statement): (e: Option<DbError>)
    ensures e.None? <==> ValuesFit(s) && ConstraintsHold(s)
    ensures e == Some(DataError) <==> !ValuesFit(s)
  {
    if !ValuesFit(s) then Some(DataError)
    else if !ConstraintsHold(s) then Some(IntegrityError)
    else None
  }

  /** The statements of one flush, in order: the first failure aborts the rest. */
  function Run(stmts: seq<Statement>): (r: Option<DbError>)
    ensures r.None? <==> forall i :: 0 <= i < |stmts| ==> Execute(stmts[i]).None?
    ensures r.Some? ==> exists i :: 0 <= i < |stmts| && Execute(stmts[i]) == r
                          && forall j :: 0 <= j < i ==> Execute(stmts[j]).None?
  {
    if |stmts| == 0 then None
    else if Execute(stmts[0]).Some? then Execute(stmts[0])
    else
      var rest := Run(stmts[1..]);
      assert forall i :: 1 <= i < |stmts| ==> stmts[i] == stmts[1..][i - 1];
      rest
  }

  /** The value of a nullable column when it is not NULL. */
  function NonNull(k: Option<int>): (xs: seq<int>)
    ensures |xs| <= 1
    ensures forall v :: v in xs <==> k == Some(v)
  {
    if k.Some? then [k.value] else []
  }

  /** The check of a nullable foreign key: none when it is NULL. */
  function Reference(k: Option<int>, keys: set<int>): seq<KeyCheck>
  {
    if k.Some? then [Present(k.value, keys)] else []
  }

  /** The values of `yr` already stored (NULLs are not values). */
  function TakenYears(db: Store): (taken: set<int>)
    ensures forall v :: v in taken <==> YearTaken(db, v)
  {
    set k | k in db.years && db.years[k].yr.Some? :: db.years[k].yr.value
  }

  function OwnerReference(db: Store, kind: CompetitionKind): seq<KeyCheck>
  {
    match kind
    case Unspecified => []
    case Domestic(c) => Reference(c, db.countries.Keys)
    case International(c) => Reference(c, db.confederations.Keys)
  }

  function MatchBaseStatement(db: Store, id: int, m: MatchSpec): Statement
  {
    Statement(
      [],
      [id, HomeGoals(m), AwayGoals(m)] + NonNull(m.competitionId) + NonNull(m.seasonId),
      [HomeGoals(m), AwayGoals(m)],
      [Absent(id, db.matches.Keys)]
        + Reference(m.competitionId, db.competitions.Keys) + Reference(m.seasonId, db.seasons.Keys))
  }

  /** The subtype row. Its id refers to the base row just written; otherwise
      it reads nothing the base row changes. */
  function MatchKindStatements(db: Store, id: int, k: MatchKind): seq<Statement>
  {
    var base := Present(id, db.matches.Keys + {id});
    match k
    case AnyMatch => []
    case FriendlyMatch => [Statement([], [id], [], [Absent(id, db.friendlyMatches), base])]
    case LeagueMatchOf(md) => [Statement([], [id, md], [], [Absent(id, db.leagueMatches.Keys), base])]
    case GroupMatchOf(md, g, gr) =>
      [Statement([(g, GroupLabelLength)], [id, md] + NonNull(gr), [],
                 [Absent(id, db.groupMatches.Keys), base] + Reference(gr, db.groupRounds.Keys))]
    case KnockoutMatchOf(md, _, ko) =>
      [Statement([], [id, md] + NonNull(ko), [],
                 [Absent(id, db.knockoutMatches.Keys), base] + Reference(ko, db.knockoutRounds.Keys))]
  }

  function Statements(db: Store, row: Row): seq<Statement>
  {
    match row
    case ConfederationRow(id, c) =>
      [Statement([(c.name, ConfederationNameLength)], [id], [], [Absent(id, db.confederations.Keys)])]
    case CountryRow(id, c) =>
      [Statement([(c.name, CountryNameLength)], [id] + NonNull(c.confederationId), [],
                 [Absent(id, db.countries.Keys)] + Reference(c.confederationId, db.confederations.Keys))]
    case YearRow(id, y) =>
      [Statement([], [id] + NonNull(y.yr), [],
                 [Absent(id, db.years.Keys)] + (if y.yr.Some? then [Absent(y.yr.value, TakenYears(db))] else []))]
    case SeasonRow(id, s) =>
      [Statement([], [id] + NonNull(s.startYearId) + NonNull(s.endYearId), [],
                 [Absent(id, db.seasons.Keys)]
                   + Reference(s.startYearId, db.years.Keys) + Reference(s.endYearId, db.years.Keys))]
    case CompetitionRow(id, c) =>
      [Statement([(c.name, CompetitionNameLength)], [id, c.level] + NonNull(OwnerId(c.kind)), [],
                 [Absent(id, db.competitions.Keys)] + OwnerReference(db, c.kind))]
    case KnockoutRoundRow(id, r) =>
      [Statement([(r.name, KnockoutRoundNameLength)], [id], [], [Absent(id, db.knockoutRounds.Keys)])]
    case GroupRoundRow(id, r) =>
      [Statement([(r.name, GroupRoundNameLength)], [id], [], [Absent(id, db.groupRounds.Keys)])]
    case MatchRow(id, m) =>
      [MatchBaseStatement(db, id, m)] + MatchKindStatements(db, id, m.kind)
    case ShootoutRow(id, s) =>
      var home, away := HomeShootoutGoals(s), AwayShootoutGoals(s);
      [Statement([], [id, home, away], [home, away],
                 [Absent(id, db.shootouts.Keys), Present(id, db.matches.Keys)])]
    case DeductionRow(id, d) =>
      [Statement([], [id, d.points] + NonNull(d.competitionId) + NonNull(d.seasonId), [],
                 [Absent(id, db.deductions.Keys)]
                   + Reference(d.competitionId, db.competitions.Keys) + Reference(d.seasonId, db.seasons.Keys))]
  }

  /** The base row a match object writes: defaults applied, phase set to its class's identity. */
  function StoredMatch(m: MatchSpec): Match
  {
    Match(m.date, HomeGoals(m), AwayGoals(m), Identity(PhaseOfKind(m.kind)), m.competitionId, m.seasonId)
  }

  /** The rows as the `varchar` columns store their texts. */
  function StoredConfederation(c: Confederation): Confederation
  {
    Confederation(VarcharValue(c.name, ConfederationNameLength))
  }

  function StoredCountry(c: Country): Country
  {
    c.(name := VarcharValue(c.name, CountryNameLength))
  }

  function StoredCompetition(c: Competition): Competition
  {
    c.(name := VarcharValue(c.name, CompetitionNameLength))
  }

  function StoredRound(r: Round, length: nat): Round
  {
    Round(VarcharValue(r.name, length))
  }

  function StoredGroupMatch(md: int, g: string, gr: Option<int>): GroupMatch
  {
    GroupMatch(md, VarcharValue(g, GroupLabelLength), gr)
  }

  /** The tables after the row's statements succeed. */
  function Apply(db: Store, row: Row): Store
  {
    match row
    case ConfederationRow(id, c) => db.(confederations := db.confederations[id := StoredConfederation(c)])
    case CountryRow(id, c) => db.(countries := db.countries[id := StoredCountry(c)])
    case YearRow(id, y) => db.(years := db.years[id := y])
    case SeasonRow(id, s) => db.(seasons := db.seasons[id := s])
    case CompetitionRow(id, c) => db.(competitions := db.competitions[id := StoredCompetition(c)])
    case KnockoutRoundRow(id, r) =>
      db.(knockoutRounds := db.knockoutRounds[id := StoredRound(r, KnockoutRoundNameLength)])
    case GroupRoundRow(id, r) => db.(groupRounds := db.groupRounds[id := StoredRound(r, GroupRoundNameLength)])
    case MatchRow(id, m) => ApplyMatch(db, id, m)
    case ShootoutRow(id, s) =>
      db.(shootouts := db.shootouts[id := MatchShootout(HomeShootoutGoals(s), AwayShootoutGoals(s))])
    case DeductionRow(id, d) => db.(deductions := db.deductions[id := d])
  }

  /** The base row and the subtype row of a match, under the same id. */
  function ApplyMatch(db: Store, id: int, m: MatchSpec): Store
  {
    var withBase := db.(matches := db.matches[id := StoredMatch(m)]);
    match m.kind
    case AnyMatch => withBase
    case FriendlyMatch => withBase.(friendlyMatches := db.friendlyMatches + {id})
    case LeagueMatchOf(md) => withBase.(leagueMatches := db.leagueMatches[id := LeagueMatch(md)])
    case GroupMatchOf(md, g, gr) => withBase.(groupMatches := db.groupMatches[id := StoredGroupMatch(md, g, gr)])
    case KnockoutMatchOf(md, et, ko) =>
      withBase.(knockoutMatches := db.knockoutMatches[id := KnockoutMatch(md, et.GetOr(false), ko)])
  }

  /** Adds one object and commits. */
  function Insert(db: Store, row: Row): (r: Outcome)
    ensures r.Ok? <==> Admissible(db, row)
    ensures r == Failed(DataError) <==> DataErrorFor(db, row)
    ensures r.Ok? ==> Contains(r.store, row)
    ensures r.Ok? ==> Remove(r.store, row) == db
  {
    InsertClassified(db, row);
    match Run(Statements(db, row))
    case Some(e) => Failed(e)
    case None => InsertRoundTrip(db, row); Ok(Apply(db, row))
  }

  /** A row other than a year leaves the years unchanged; a year adds exactly
      its own row. */
  lemma ApplyKeepsYears(db: Store, row: Row)
    ensures row.YearRow? ==> Apply(db, row).years == db.years[row.id := row.year]
    ensures !row.YearRow? ==> Apply(db, row).years == db.years
  {
    if row.YearRow? {
      YearApplied(db, row);
    } else if row.MatchRow? {
      MatchKeepsYears(db, row.id, row.spec);
    } else {
      OtherRowKeepsYears(db, row);
    }
  }

  lemma YearApplied(db: Store, row: Row)
    requires row.YearRow?
    ensures Apply(db, row).years == db.years[row.id := row.year]
  {
  }

  lemma OtherRowKeepsYears(db: Store, row: Row)
    requires !row.YearRow? && !row.MatchRow?
    ensures Apply(db, row).years == db.years
  {
  }

  lemma MatchKeepsYears(db: Store, id: int, m: MatchSpec)
    ensures ApplyMatch(db, id, m).years == db.years
  {
    match m.kind
    case AnyMatch =>
    case FriendlyMatch => FriendlyKeepsYears(db, id, m);
    case LeagueMatchOf(_) => LeagueKeepsYears(db, id, m);
    case GroupMatchOf(_, _, _) => GroupKeepsYears(db, id, m);
    case KnockoutMatchOf(_, _, _) => KnockoutKeepsYears(db, id, m);
  }

  lemma FriendlyKeepsYears(db: Store, id: int, m: MatchSpec)
    requires m.kind.FriendlyMatch?
    ensures ApplyMatch(db, id, m).years == db.years
  {
  }

  lemma LeagueKeepsYears(db: Store, id: int, m: MatchSpec)
    requires m.kind.LeagueMatchOf?
    ensures ApplyMatch(db, id, m).years == db.years
  {
  }

  lemma GroupKeepsYears(db: Store, id: int, m: MatchSpec)
    requires m.kind.GroupMatchOf?
    ensures ApplyMatch(db, id, m).years == db.years
  {
  }

  lemma KnockoutKeepsYears(db: Store, id: int, m: MatchSpec)
    requires m.kind.KnockoutMatchOf?
    ensures ApplyMatch(db, id, m).years == db.years
  {
  }

  // ---------------------------------------------------------------------------
  // Reading rows back

  /** The subtype part of a loaded match. */
  datatype MatchDetail =
    | NoDetail
    | FriendlyDetail
    | LeagueDetail(league: LeagueMatch)
    | GroupDetail(group: GroupMatch)
    | KnockoutDetail(knockout: KnockoutMatch)

  datatype MatchRecord = MatchRecord(base: Match, detail: MatchDetail)

  /** Loading a match by id through the base class: the `phase` discriminator
      selects the subtype, whose row is joined under the same id. */
  function LoadMatch(db: Store, id: int): Option<MatchRecord>
  {
    if id !in db.matches then None
    else
      var base := db.matches[id];
      match PhaseOf(base.phase)
      case None => None
      case Some(Generic) => Some(MatchRecord(base, NoDetail))
      case Some(Friendly) =>
        if id in db.friendlyMatches then Some(MatchRecord(base, FriendlyDetail)) else None
      case Some(League) =>
        if id in db.leagueMatches then Some(MatchRecord(base, LeagueDetail(db.leagueMatches[id]))) else None
      case Some(Group) =>
        if id in db.groupMatches then Some(MatchRecord(base, GroupDetail(db.groupMatches[id]))) else None
      case Some(Knockout) =>
        if id in db.knockoutMatches then Some(MatchRecord(base, KnockoutDetail(db.knockoutMatches[id]))) else None
  }

  /** What a match object reads back as once committed. */
  function DetailOf(k: MatchKind): MatchDetail
  {
    match k
    case AnyMatch => NoDetail
    case FriendlyMatch => FriendlyDetail
    case LeagueMatchOf(md) => LeagueDetail(LeagueMatch(md))
    case GroupMatchOf(md, g, gr) => GroupDetail(StoredGroupMatch(md, g, gr))
    case KnockoutMatchOf(md, et, ko) => KnockoutDetail(KnockoutMatch(md, et.GetOr(false), ko))
  }

  /** The row is in the store and reads back as it was given, with defaults
      applied and texts as their columns store them. */
  predicate Contains(db: Store, row: Row)
  {
    match row
    case ConfederationRow(id, c) => id in db.confederations && db.confederations[id] == StoredConfederation(c)
    case CountryRow(id, c) => id in db.countries && db.countries[id] == StoredCountry(c)
    case YearRow(id, y) => id in db.years && db.years[id] == y
    case SeasonRow(id, s) => id in db.seasons && db.seasons[id] == s
    case CompetitionRow(id, c) => id in db.competitions && db.competitions[id] == StoredCompetition(c)
    case KnockoutRoundRow(id, r) =>
      id in db.knockoutRounds && db.knockoutRounds[id] == StoredRound(r, KnockoutRoundNameLength)
    case GroupRoundRow(id, r) => id in db.groupRounds && db.groupRounds[id] == StoredRound(r, GroupRoundNameLength)
    case MatchRow(id, m) => LoadMatch(db, id) == Some(MatchRecord(StoredMatch(m), DetailOf(m.kind)))
    case ShootoutRow(id, s) =>
      id in db.shootouts && db.shootouts[id] == MatchShootout(HomeShootoutGoals(s), AwayShootoutGoals(s))
    case DeductionRow(id, d) => id in db.deductions && db.deductions[id] == d
  }

  /** Deletes the rows an object occupies: its own row, and for a match the
      base row and the row of its subtype table. */
  function Remove(db: Store, row: Row): Store
  {
    match row
    case ConfederationRow(id, _) => db.(confederations := db.confederations - {id})
    case CountryRow(id, _) => db.(countries := db.countries - {id})
    case YearRow(id, _) => db.(years := db.years - {id})
    case SeasonRow(id, _) => db.(seasons := db.seasons - {id})
    case CompetitionRow(id, _) => db.(competitions := db.competitions - {id})
    case KnockoutRoundRow(id, _) => db.(knockoutRounds := db.knockoutRounds - {id})
    case GroupRoundRow(id, _) => db.(groupRounds := db.groupRounds - {id})
    case MatchRow(id, m) => RemoveMatch(db, id, m.kind)
    case ShootoutRow(id, _) => db.(shootouts := db.shootouts - {id})
    case DeductionRow(id, _) => db.(deductions := db.deductions - {id})
  }

  function RemoveMatch(db: Store, id: int, k: MatchKind): Store
  {
    var withoutBase := db.(matches := db.matches - {id});
    match k
    case AnyMatch => withoutBase
    case FriendlyMatch => withoutBase.(friendlyMatches := db.friendlyMatches - {id})
    case LeagueMatchOf(_) => withoutBase.(leagueMatches := db.leagueMatches - {id})
    case GroupMatchOf(_, _, _) => withoutBase.(groupMatches := db.groupMatches - {id})
    case KnockoutMatchOf(_, _, _) => withoutBase.(knockoutMatches := db.knockoutMatches - {id})
  }

  // ---------------------------------------------------------------------------
  // Proofs of Insert's contract

  lemma InsertClassified(db: Store, row: Row)
    ensures Run(Statements(db, row)).None? <==> Admissible(db, row)
    ensures Run(Statements(db, row)) == Some(DataError) <==> DataErrorFor(db, row)
  {
    match row
    case ConfederationRow(id, c) => ConfederationClassified(db, id, c);
    case CountryRow(id, c) => CountryClassified(db, id, c);
    case YearRow(id, y) => YearClassified(db, id, y);
    case SeasonRow(id, s) => SeasonClassified(db, id, s);
    case CompetitionRow(id, c) => CompetitionClassified(db, id, c);
    case KnockoutRoundRow(id, r) => KnockoutRoundClassified(db, id, r);
    case GroupRoundRow(id, r) => GroupRoundClassified(db, id, r);
    case MatchRow(id, m) => MatchClassified(db, id, m);
    case ShootoutRow(id, s) => ShootoutClassified(db, id, s);
    case DeductionRow(id, d) => DeductionClassified(db, id, d);
  }

  lemma ConfederationClassified(db: Store, id: int, c: Confederation)
    ensures Run(Statements(db, ConfederationRow(id, c))).None? <==> Admissible(db, ConfederationRow(id, c))
    ensures Run(Statements(db, ConfederationRow(id, c))) == Some(DataError) <==>
              DataErrorFor(db, ConfederationRow(id, c))
  {
    SingleText(c.name, ConfederationNameLength);
    SingleFits(id);
    SingleKey(Absent(id, db.confederations.Keys));
    RunSingle(Statements(db, ConfederationRow(id, c))[0]);
  }

  lemma CountryClassified(db: Store, id: int, c: Country)
    ensures Run(Statements(db, CountryRow(id, c))).None? <==> Admissible(db, CountryRow(id, c))
    ensures Run(Statements(db, CountryRow(id, c))) == Some(DataError) <==> DataErrorFor(db, CountryRow(id, c))
  {
    SingleText(c.name, CountryNameLength);
    NonNullFits(c.confederationId);
    SingleFits(id);
    AllFitConcat([id], NonNull(c.confederationId));
    PrimaryKeyThen(id, db.countries.Keys, Reference(c.confederationId, db.confederations.Keys));
    ReferenceHolds(c.confederationId, db.confederations.Keys);
    RunSingle(Statements(db, CountryRow(id, c))[0]);
  }

  lemma YearClassified(db: Store, id: int, y: Year)
    ensures Run(Statements(db, YearRow(id, y))).None? <==> Admissible(db, YearRow(id, y))
    ensures Run(Statements(db, YearRow(id, y))) == Some(DataError) <==> DataErrorFor(db, YearRow(id, y))
  {
    NonNullFits(y.yr);
    SingleFits(id);
    AllFitConcat([id], NonNull(y.yr));
    var unique := if y.yr.Some? then [Absent(y.yr.value, TakenYears(db))] else [];
    PrimaryKeyThen(id, db.years.Keys, unique);
    if y.yr.Some? {
      SingleKey(Absent(y.yr.value, TakenYears(db)));
    }
    RunSingle(Statements(db, YearRow(id, y))[0]);
  }

  lemma SeasonClassified(db: Store, id: int, s: Season)
    ensures Run(Statements(db, SeasonRow(id, s))).None? <==> Admissible(db, SeasonRow(id, s))
    ensures Run(Statements(db, SeasonRow(id, s))) == Some(DataError) <==> DataErrorFor(db, SeasonRow(id, s))
  {
    NonNullFits(s.startYearId);
    NonNullFits(s.endYearId);
    SingleFits(id);
    AllFitConcat([id], NonNull(s.startYearId));
    AllFitConcat([id] + NonNull(s.startYearId), NonNull(s.endYearId));
    var starts, ends := Reference(s.startYearId, db.years.Keys), Reference(s.endYearId, db.years.Keys);
    PrimaryKeyThen(id, db.seasons.Keys, starts + ends);
    KeysConcat(starts, ends);
    ReferenceHolds(s.startYearId, db.years.Keys);
    ReferenceHolds(s.endYearId, db.years.Keys);
    assert [Absent(id, db.seasons.Keys)] + starts + ends == [Absent(id, db.seasons.Keys)] + (starts + ends);
    RunSingle(Statements(db, SeasonRow(id, s))[0]);
  }

  lemma CompetitionClassified(db: Store, id: int, c: Competition)
    ensures Run(Statements(db, CompetitionRow(id, c))).None? <==> Admissible(db, CompetitionRow(id, c))
    ensures Run(Statements(db, CompetitionRow(id, c))) == Some(DataError) <==>
              DataErrorFor(db, CompetitionRow(id, c))
  {
    SingleText(c.name, CompetitionNameLength);
    NonNullFits(OwnerId(c.kind));
    PairFits(id, c.level);
    AllFitConcat([id, c.level], NonNull(OwnerId(c.kind)));
    PrimaryKeyThen(id, db.competitions.Keys, OwnerReference(db, c.kind));
    OwnerReferenceHolds(db, c.kind);
    RunSingle(Statements(db, CompetitionRow(id, c))[0]);
  }

  lemma KnockoutRoundClassified(db: Store, id: int, r: Round)
    ensures Run(Statements(db, KnockoutRoundRow(id, r))).None? <==> Admissible(db, KnockoutRoundRow(id, r))
    ensures Run(Statements(db, KnockoutRoundRow(id, r))) == Some(DataError) <==>
              DataErrorFor(db, KnockoutRoundRow(id, r))
  {
    SingleText(r.name, KnockoutRoundNameLength);
    SingleFits(id);
    SingleKey(Absent(id, db.knockoutRounds.Keys));
    RunSingle(Statements(db, KnockoutRoundRow(id, r))[0]);
  }

  lemma GroupRoundClassified(db: Store, id: int, r: Round)
    ensures Run(Statements(db, GroupRoundRow(id, r))).None? <==> Admissible(db, GroupRoundRow(id, r))
    ensures Run(Statements(db, GroupRoundRow(id, r))) == Some(DataError) <==>
              DataErrorFor(db, GroupRoundRow(id, r))
  {
    SingleText(r.name, GroupRoundNameLength);
    SingleFits(id);
    SingleKey(Absent(id, db.groupRounds.Keys));
    RunSingle(Statements(db, GroupRoundRow(id, r))[0]);
  }

  lemma ShootoutClassified(db: Store, id: int, s: ShootoutSpec)
    ensures Run(Statements(db, ShootoutRow(id, s))).None? <==> Admissible(db, ShootoutRow(id, s))
    ensures Run(Statements(db, ShootoutRow(id, s))) == Some(DataError) <==> DataErrorFor(db, ShootoutRow(id, s))
  {
    var home, away := HomeShootoutGoals(s), AwayShootoutGoals(s);
    PairFits(home, away);
    AllFitConcat([id], [home, away]);
    assert [id, home, away] == [id] + [home, away];
    SingleFits(id);
    PairNonNegative(home, away);
    PairKeys(Absent(id, db.shootouts.Keys), Present(id, db.matches.Keys));
    RunSingle(Statements(db, ShootoutRow(id, s))[0]);
  }

  lemma DeductionClassified(db: Store, id: int, d: Deduction)
    ensures Run(Statements(db, DeductionRow(id, d))).None? <==> Admissible(db, DeductionRow(id, d))
    ensures Run(Statements(db, DeductionRow(id, d))) == Some(DataError) <==> DataErrorFor(db, DeductionRow(id, d))
  {
    NonNullFits(d.competitionId);
    NonNullFits(d.seasonId);
    PairFits(id, d.points);
    AllFitConcat([id, d.points], NonNull(d.competitionId));
    AllFitConcat([id, d.points] + NonNull(d.competitionId), NonNull(d.seasonId));
    var competitions := Reference(d.competitionId, db.competitions.Keys);
    var seasons := Reference(d.seasonId, db.seasons.Keys);
    PrimaryKeyThen(id, db.deductions.Keys, competitions + seasons);
    KeysConcat(competitions, seasons);
    ReferenceHolds(d.competitionId, db.competitions.Keys);
    ReferenceHolds(d.seasonId, db.seasons.Keys);
    assert [Absent(id, db.deductions.Keys)] + competitions + seasons
        == [Absent(id, db.deductions.Keys)] + (competitions + seasons);
    RunSingle(Statements(db, DeductionRow(id, d))[0]);
  }

  lemma MatchClassified(db: Store, id: int, m: MatchSpec)
    ensures Run(Statements(db, MatchRow(id, m))).None? <==> Admissible(db, MatchRow(id, m))
    ensures Run(Statements(db, MatchRow(id, m))) == Some(DataError) <==> DataErrorFor(db, MatchRow(id, m))
  {
    var base := MatchBaseStatement(db, id, m);
    var kinds := MatchKindStatements(db, id, m.kind);
    assert Statements(db, MatchRow(id, m)) == [base] + kinds;
    RunFirst(base, kinds);
    MatchBaseExecuted(db, id, m);
    MatchKindExecuted(db, id, m.kind);
  }

  lemma MatchBaseExecuted(db: Store, id: int, m: MatchSpec)
    ensures Execute(MatchBaseStatement(db, id, m)).None? <==>
              MatchBaseFits(id, m) && MatchChecks(m) && MatchBaseKeys(db, id, m)
    ensures Execute(MatchBaseStatement(db, id, m)) == Some(DataError) <==> !MatchBaseFits(id, m)
  {
    var home, away := HomeGoals(m), AwayGoals(m);
    NonNullFits(m.competitionId);
    NonNullFits(m.seasonId);
    PairFits(home, away);
    SingleFits(id);
    AllFitConcat([id], [home, away]);
    assert [id, home, away] == [id] + [home, away];
    AllFitConcat([id, home, away], NonNull(m.competitionId));
    AllFitConcat([id, home, away] + NonNull(m.competitionId), NonNull(m.seasonId));
    PairNonNegative(home, away);
    var competitions := Reference(m.competitionId, db.competitions.Keys);
    var seasons := Reference(m.seasonId, db.seasons.Keys);
    PrimaryKeyThen(id, db.matches.Keys, competitions + seasons);
    KeysConcat(competitions, seasons);
    ReferenceHolds(m.competitionId, db.competitions.Keys);
    ReferenceHolds(m.seasonId, db.seasons.Keys);
    assert [Absent(id, db.matches.Keys)] + competitions + seasons
        == [Absent(id, db.matches.Keys)] + (competitions + seasons);
  }

  lemma MatchKindExecuted(db: Store, id: int, k: MatchKind)
    ensures Run(MatchKindStatements(db, id, k)).None? <==> MatchKindFits(id, k) && MatchKindKeys(db, id, k)
    ensures Run(MatchKindStatements(db, id, k)) == Some(DataError) <==> !MatchKindFits(id, k)
  {
    var kinds := MatchKindStatements(db, id, k);
    var base := Present(id, db.matches.Keys + {id});
    match k
    case AnyMatch =>
    case FriendlyMatch =>
      SingleFits(id);
      PairKeys(Absent(id, db.friendlyMatches), base);
      RunSingle(kinds[0]);
    case LeagueMatchOf(md) =>
      PairFits(id, md);
      PairKeys(Absent(id, db.leagueMatches.Keys), base);
      RunSingle(kinds[0]);
    case GroupMatchOf(md, g, gr) =>
      SingleText(g, GroupLabelLength);
      NonNullFits(gr);
      PairFits(id, md);
      AllFitConcat([id, md], NonNull(gr));
      PairKeys(Absent(id, db.groupMatches.Keys), base);
      KeysConcat([Absent(id, db.groupMatches.Keys), base], Reference(gr, db.groupRounds.Keys));
      ReferenceHolds(gr, db.groupRounds.Keys);
      RunSingle(kinds[0]);
    case KnockoutMatchOf(md, et, ko) =>
      NonNullFits(ko);
      PairFits(id, md);
      AllFitConcat([id, md], NonNull(ko));
      PairKeys(Absent(id, db.knockoutMatches.Keys), base);
      KeysConcat([Absent(id, db.knockoutMatches.Keys), base], Reference(ko, db.knockoutRounds.Keys));
      ReferenceHolds(ko, db.knockoutRounds.Keys);
      RunSingle(kinds[0]);
  }

  lemma SingleText(t: string, n: nat)
    ensures TextsFit([(t, n)]) <==> TextFits(t, n)
  {
    assert [(t, n)][0] == (t, n);
  }

  lemma SingleKey(c: KeyCheck)
    ensures AllKeysHold([c]) <==> KeyCheckHolds(c)
  {
    assert [c][0] == c;
  }

  lemma PairKeys(c: KeyCheck, d: KeyCheck)
    ensures AllKeysHold([c, d]) <==> KeyCheckHolds(c) && KeyCheckHolds(d)
  {
    assert [c, d][0] == c && [c, d][1] == d;
  }

  lemma KeysConcat(a: seq<KeyCheck>, b: seq<KeyCheck>)
    ensures AllKeysHold(a + b) <==> AllKeysHold(a) && AllKeysHold(b)
  {
    if AllKeysHold(a + b) {
      forall i | 0 <= i < |a|
        ensures KeyCheckHolds(a[i])
      {
        assert a[i] == (a + b)[i];
      }
      forall i | 0 <= i < |b|
        ensures KeyCheckHolds(b[i])
      {
        assert b[i] == (a + b)[|a| + i];
      }
    }
  }

  /** The primary key is checked first, then the row's other keys. */
  lemma PrimaryKeyThen(id: int, keys: set<int>, rest: seq<KeyCheck>)
    ensures AllKeysHold([Absent(id, keys)] + rest) <==> id !in keys && AllKeysHold(rest)
  {
    KeysConcat([Absent(id, keys)], rest);
    SingleKey(Absent(id, keys));
  }

  /** A nullable foreign key's check holds exactly when the key resolves. */
  lemma ReferenceHolds(k: Option<int>, keys: set<int>)
    ensures AllKeysHold(Reference(k, keys)) <==> Resolves(k, keys)
  {
    if k.Some? {
      SingleKey(Present(k.value, keys));
    }
  }

  lemma OwnerReferenceHolds(db: Store, kind: CompetitionKind)
    ensures AllKeysHold(OwnerReference(db, kind)) <==> OwnerResolves(db, kind)
  {
    match kind
    case Unspecified =>
    case Domestic(c) => ReferenceHolds(c, db.countries.Keys);
    case International(c) => ReferenceHolds(c, db.confederations.Keys);
  }

  lemma SingleFits(x: int)
    ensures AllFit([x]) <==> FitsInteger(x)
  {
    assert [x][0] == x;
  }

  lemma PairFits(x: int, y: int)
    ensures AllFit([x, y]) <==> FitsInteger(x) && FitsInteger(y)
  {
    assert [x, y][0] == x && [x, y][1] == y;
  }

  lemma PairNonNegative(x: int, y: int)
    ensures AllNonNegative([x, y]) <==> x >= 0 && y >= 0
  {
    assert [x, y][0] == x && [x, y][1] == y;
  }

  lemma RunSingle(s: Statement)
    ensures Run([s]) == Execute(s)
  {
  }

  lemma RunFirst(s: Statement, rest: seq<Statement>)
    ensures Run([s] + rest) == if Execute(s).Some? then Execute(s) else Run(rest)
  {
    assert ([s] + rest)[1..] == rest;
  }

  lemma AllFitConcat(a: seq<int>, b: seq<int>)
    ensures AllFit(a + b) <==> AllFit(a) && AllFit(b)
  {
    if AllFit(a) && AllFit(b) {
      forall i | 0 <= i < |a + b|
        ensures FitsInteger((a + b)[i])
      {
        if i >= |a| {
          assert (a + b)[i] == b[i - |a|];
        }
      }
    }
    if AllFit(a + b) {
      forall i | 0 <= i < |a|
        ensures FitsInteger(a[i])
      {
        assert a[i] == (a + b)[i];
      }
      forall i | 0 <= i < |b|
        ensures FitsInteger(b[i])
      {
        assert b[i] == (a + b)[|a| + i];
      }
    }
  }

  lemma NonNullFits(k: Option<int>)
    ensures AllFit(NonNull(k)) <==> FitsNullable(k)
  {
    if k.Some? {
      assert NonNull(k)[0] == k.value;
    }
  }

  lemma InsertRoundTrip(db: Store, row: Row)
    requires Admissible(db, row)
    ensures Contains(Apply(db, row), row)
    ensures Remove(Apply(db, row), row) == db
  {
    match row
    case ConfederationRow(id, c) =>
      assert db.confederations[id := StoredConfederation(c)] - {id} == db.confederations;
    case CountryRow(id, c) =>
      assert db.countries[id := StoredCountry(c)] - {id} == db.countries;
    case YearRow(id, _) =>
      assert db.years[id := row.year] - {id} == db.years;
    case SeasonRow(id, _) =>
      assert db.seasons[id := row.season] - {id} == db.seasons;
    case CompetitionRow(id, c) =>
      assert db.competitions[id := StoredCompetition(c)] - {id} == db.competitions;
    case KnockoutRoundRow(id, r) =>
      assert db.knockoutRounds[id := StoredRound(r, KnockoutRoundNameLength)] - {id} == db.knockoutRounds;
    case GroupRoundRow(id, r) =>
      assert db.groupRounds[id := StoredRound(r, GroupRoundNameLength)] - {id} == db.groupRounds;
    case MatchRow(id, m) =>
      MatchRoundTrip(db, id, m);
    case ShootoutRow(id, s) =>
      var stored := MatchShootout(HomeShootoutGoals(s), AwayShootoutGoals(s));
      assert db.shootouts[id := stored] - {id} == db.shootouts;
    case DeductionRow(id, _) =>
      assert db.deductions[id := row.deduction] - {id} == db.deductions;
  }

  lemma MatchRoundTrip(db: Store, id: int, m: MatchSpec)
    requires Admissible(db, MatchRow(id, m))
    ensures Contains(Apply(db, MatchRow(id, m)), MatchRow(id, m))
    ensures Remove(Apply(db, MatchRow(id, m)), MatchRow(id, m)) == db
  {
    MatchLoadsBack(db, id, m);
    MatchRemovedBack(db, id, m);
  }

  lemma MatchLoadsBack(db: Store, id: int, m: MatchSpec)
    ensures LoadMatch(ApplyMatch(db, id, m), id) == Some(MatchRecord(StoredMatch(m), DetailOf(m.kind)))
  {
    match m.kind
    case AnyMatch => KindLoadsBack(db, id, m, Generic);
    case FriendlyMatch => KindLoadsBack(db, id, m, Friendly);
    case LeagueMatchOf(_) => KindLoadsBack(db, id, m, League);
    case GroupMatchOf(_, _, _) => KindLoadsBack(db, id, m, Group);
    case KnockoutMatchOf(_, _, _) => KindLoadsBack(db, id, m, Knockout);
  }

  lemma KindLoadsBack(db: Store, id: int, m: MatchSpec, p: Phase)
    requires PhaseOfKind(m.kind) == p
    ensures LoadMatch(ApplyMatch(db, id, m), id) == Some(MatchRecord(StoredMatch(m), DetailOf(m.kind)))
  {
    assert PhaseOf(Identity(p)) == Some(p);
  }

  lemma MatchRemovedBack(db: Store, id: int, m: MatchSpec)
    requires id !in db.matches
    requires MatchKindKeys(db, id, m.kind)
    ensures RemoveMatch(ApplyMatch(db, id, m), id, m.kind) == db
  {
    match m.kind
    case AnyMatch => KindRemovedBack(db, id, m, Generic);
    case FriendlyMatch => KindRemovedBack(db, id, m, Friendly);
    case LeagueMatchOf(_) => KindRemovedBack(db, id, m, League);
    case GroupMatchOf(_, _, _) => KindRemovedBack(db, id, m, Group);
    case KnockoutMatchOf(_, _, _) => KindRemovedBack(db, id, m, Knockout);
  }

  lemma KindRemovedBack(db: Store, id: int, m: MatchSpec, p: Phase)
    requires PhaseOfKind(m.kind) == p
    requires id !in db.matches
    requires MatchKindKeys(db, id, m.kind)
    ensures RemoveMatch(ApplyMatch(db, id, m), id, m.kind) == db
  {
    assert db.matches[id := StoredMatch(m)] - {id} == db.matches;
    match m.kind
    case AnyMatch =>
    case FriendlyMatch =>
      assert (db.friendlyMatches + {id}) - {id} == db.friendlyMatches;
    case LeagueMatchOf(md) =>
      assert db.leagueMatches[id := LeagueMatch(md)] - {id} == db.leagueMatches;
    case GroupMatchOf(md, g, gr) =>
      assert db.groupMatches[id := StoredGroupMatch(md, g, gr)] - {id} == db.groupMatches;
    case KnockoutMatchOf(md, et, ko) =>
      assert db.knockoutMatches[id := KnockoutMatch(md, et.GetOr(false), ko)] - {id} == db.knockoutMatches;
  }
}
