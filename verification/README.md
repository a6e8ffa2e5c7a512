# Common football data model of marcotti-light, in Dafny

This project models the common schema of marcotti-light
(`light/common/models.py`). The schema has these tables:

- confederations and countries;
- years and seasons;
- competitions, with their domestic and international kinds;
- knockout and group rounds;
- matches, with the joined subtypes friendly, league, group and knockout;
- match shootouts and points deductions.

The model has two parts.

**Season derivations.** A season's `name` exists in two forms:

- the in-memory property, which formats the years with Python's `str()`;
- the query expression, which concatenates SQL `CAST(... AS VARCHAR)` texts under a `CASE`.

Both forms are written out and proved equal for every pair of year values. The proof first shows that the cast's digit algorithm (least significant digit first, then reversed) gives the same text as `str()`. The name identifies the pair of years, so filtering seasons by name selects exactly the seasons with those years. `reference_date` is 31 December of the end year for a calendar-year season and 30 June for a split season. `__repr__` prints the name.

`years.yr` is nullable. On a stored season whose year rows load but hold a NULL `yr`, the property formats Python's `None` ("None", "None-1995", "1994-None"), while the query column is NULL. The two forms are proved to agree exactly on the other seasons. This case is recorded under "## Findings", together with the schema that declares `yr` NOT NULL.

**Row validity at commit.** The store is immutable and has one map per table, keyed by primary key. `Insert` adds one object and reports one of three outcomes: `Ok(store)`, `Failed(DataError)` or `Failed(IntegrityError)`.

- A `DataError` is an integer outside the 32-bit `Integer` range, or a text longer than its column with a character other than a space past the column's length. A text whose excess is all spaces is cut to the column's length and stored.
- An `IntegrityError` is a failed CHECK, primary-key, UNIQUE or foreign-key constraint.

The CHECK constraints are non-negative goals and non-negative shootout goals. The UNIQUE constraint is `years.yr`; NULLs never compare equal, so any number of years may have a NULL `yr`.

Each INSERT statement first coerces its values and then checks constraints, which is PostgreSQL's behaviour. A subtype match is two statements: the base `matches` row, then the subtype row under the same id. The first failing statement decides the error.

`Insert` runs the row's statements. Each statement carries its own values: the texts with their column lengths, the integers, the CHECK operands, and each key constraint as a value together with the set of stored keys it must be absent from or present in. `Execute` judges a statement from these values alone. `Insert` is proved against a second, row-level statement of the same schema rules, `Admissible` and `DataErrorFor`. Both are written from the schema, so the proof shows that the statement encoding agrees with the row-level rules: the order of the statements, coercion before constraints, and the split of a subtype match. It does not check the rules against a third source. The other proved properties are:

- a committed row reads back as given, with the column defaults applied and texts as their columns store them;
- removing that row restores the previous store exactly.

Every committed insert preserves a consistency invariant. The invariant covers:

- column lengths;
- the CHECK and UNIQUE constraints;
- resolving foreign keys;
- joined-table inheritance in both directions.

In a consistent store, every base row loads as its subtype.

Files:

- `wrappers.dfy`: the `Option` type.
- `decimal.dfy`: the decimal text of integers in both algorithms, and the parse that inverts them.
- `seasons.dfy`: the season name, its representation and its reference date, as functions of the year values.
- `schema.dfy`: the row datatypes, the column limits and the polymorphic identities.
- `store.dfy`: the tables, statement execution, `Insert`, loading and removal.
- `integrity.dfy`: the consistency invariant and its preservation.
- `season_queries.dfy`: the season attributes read through the stored `years` rows, with SQL NULL semantics for the query form.
- `store_properties.dfy`: the rejections and defaults the schema promises.

## Model

| member | source | states |
|---|---|---|
| Decimal.StrRoundTrip | light/common/models.py:72-75 | The decimal text `str()` writes for a year value reads back as that same integer, negative years included |
| Decimal.StrInjective | light/common/models.py:72-75 | Two year values get the same `str()` text exactly when they are equal |
| Decimal.CastAgreesWithStr | light/common/models.py:85-87 | The SQL cast of an integer to text writes the same characters as Python's `str()` of it |
| Seasons.PropertyName | light/common/models.py:65-75 | The season name starts with the start year's text, and it is a bare numeral exactly when start and end year are equal |
| Seasons.NameFormsAgree | light/common/models.py:65-87 | The query expression for `name` and the `name` property give the same text for every pair of years |
| Seasons.NameDeterminesYears | light/common/models.py:72-75 | Two seasons have the same name if and only if they have the same start year and the same end year |
| Seasons.ReprDeterminesYears | light/common/models.py:109-110 | Two seasons have the same `__repr__` if and only if they have the same years |
| Seasons.SeasonNameExamples | tests/test_common.py:152-165 | Names "1994", "1994-1995" and "2014-2015", and the reprs `<Season(1994)>` and `<Season(1994-1995)>` |
| Seasons.EndYearDate | light/common/models.py:104-107 | Given whether the season is a calendar year and its end year: a date exists exactly when the end year is a valid `date` year. It lies in the end year, on the last day of its month, in December for a calendar-year season and in June otherwise |
| Seasons.ReferenceDate | light/common/models.py:89-107 | There is a reference date exactly when the end year is a valid `date` year. It lies in the end year, on the last day of its month. The month is December exactly for a calendar-year season and June otherwise |
| Seasons.ReferenceDateBounds | light/common/models.py:95-107 | For a calendar-year season every date of its year is on or before the reference date. For a split season a date of the end year is on or before it exactly when it falls in January to June |
| Seasons.ReferenceDateExamples | tests/test_common.py:179-207 | 1994 gives 31 December 1994, and 1994-1995 gives 30 June 1995 |
| Schema.VarcharValue | light/common/models.py:19-19 | The text a `varchar(n)` column stores has at most `n` characters and is a prefix of the text given. It is the text itself when that has at most `n` characters. A longer text is cut to exactly its first `n` characters, and when the text fits the column only spaces are cut off |
| Schema.PhaseOf | light/common/models.py:197-200 | The discriminator lookup finds the class whose polymorphic identity equals the stored `phase`, and finds none when no class has it |
| Store.Insert | light/common/models.py:12-298 | Commit succeeds exactly when the row is admissible: all values fit, the CHECKs hold, the key is fresh, a non-NULL `yr` is fresh and every foreign key resolves. It fails with `DataError` exactly when a value does not fit in the first statement that fails. A committed row reads back as given, with defaults applied and texts cut to their columns, and removing it restores the previous store |
| Store.InsertClassified | light/common/models.py:12-298 | Executing the row's statements in order, with coercion before constraints and each key checked against the stored keys, fails exactly when the row is not admissible, and fails with `DataError` exactly under `DataErrorFor` |
| Store.ReferenceHolds | light/common/models.py:36-36 | The check a statement makes for a nullable foreign key passes exactly when the key is NULL or names a stored row |
| Store.YearClassified | light/common/models.py:48-49 | The statement inserting a year, which checks the key against the stored ids and a non-NULL `yr` against the stored `yr` values, fails exactly when the year is not admissible, and with `DataError` exactly when a value does not fit |
| Store.InsertRoundTrip | light/common/models.py:12-298 | Applying an admissible row makes it readable with defaults applied, and removing it again gives back the original tables |
| Store.MatchLoadsBack | light/common/models.py:184-257 | A match written with any class loads through the base class with its defaults applied, `phase` set to its class's identity, and its subtype row joined under the same id |
| Store.MatchRemovedBack | light/common/models.py:209-257 | Deleting a freshly written match's base row and its subtype row gives back the original tables |
| Integrity.EmptyConsistent | light/common/models.py:12-298 | The empty database satisfies every constraint of the schema |
| Integrity.InsertPreservesConsistency | light/common/models.py:12-298 | Every committed insert keeps the stored data within the column lengths, CHECK, UNIQUE and foreign-key constraints, and joined-table inheritance |
| Integrity.YearsUniqueAdd | light/common/models.py:49-49 | Adding a year whose `yr` is NULL, or a value no stored year has, keeps `yr` unique, where NULLs are never duplicates |
| Integrity.JoinedAdd | light/common/models.py:197-257 | Adding a base row with its phase's subtype row keeps two facts. Every subtype row sits under a base row whose phase is that subtype. Every base row with a subtype phase has its subtype row |
| Integrity.JoinedIdentity | light/common/models.py:209-257 | In a consistent store a match loads exactly when its base row exists. It loads with that base row, and as the subtype whose table holds its id |
| SeasonQueries.SameValueSameYearRow | light/common/models.py:49-49 | With `yr` unique, two year keys whose subqueries give the same non-NULL value are the same key |
| SeasonQueries.PyStr | light/common/models.py:72-75 | Python's text of a `yr` attribute is a numeral exactly when `yr` is not NULL, and that numeral reads back as the year |
| SeasonQueries.LoadedName | light/common/models.py:72-75 | On two loaded years with values the property is the season name of those values; its text always starts with the start year's text |
| SeasonQueries.SeasonName | light/common/models.py:65-75 | The property has a value exactly when both year rows load, and with both `yr` present it is the name of those years |
| SeasonQueries.SeasonNameColumn | light/common/models.py:77-87 | The query column is NULL exactly when a year row is missing or holds a NULL `yr` |
| SeasonQueries.SeasonNameFormsAgree | light/common/models.py:65-87 | With both `yr` present the query column and the property hold the same name. The two forms are equal exactly when both years have values or a year row is missing |
| SeasonQueries.FilterByName | light/common/models.py:77-87 | Filtering seasons on a name selects exactly the stored seasons with that start and that end year |
| SeasonQueries.SameNameSameYearRows | light/common/models.py:49-87 | With `yr` unique, two stored seasons whose `name` column holds the same text refer to the same two year rows |
| SeasonQueries.SeasonReferenceDate | light/common/models.py:104-107 | A loaded season has a reference date exactly when both year rows load and the end year has a value in the range of `date`. The date lies in that year, on the last day of its month, in December exactly when the two year values are equal, where a NULL start year is never equal. With both years present it is the date of those years |
| SeasonQueries.SeasonText | light/common/models.py:109-110 | A loaded season's repr exists exactly when both year rows load, and with both `yr` present it is the repr of those two years, which determines them |
| SeasonQueries.SameReprSameYearRows | light/common/models.py:49-110 | With `yr` unique and NOT NULL, two seasons with the same repr refer to the same two year rows |
| SeasonQueries.NullYearNameDisagrees | light/common/models.py:49-87 | A season whose only year row has a NULL `yr` has the property name "None" and a NULL query column |
| SeasonQueries.NullYearNamesCollide | light/common/models.py:49-75 | Two different seasons over two NULL-`yr` years satisfy the UNIQUE constraint and share the property name "None" |
| SeasonQueries.InsertYrNotNull | light/common/models.py:49-49 | With `yr` NOT NULL, a year with a NULL `yr` fails, every other row commits as before, and a store whose years all have values keeps that |
| SeasonQueries.NamesAgreeWhenYrNotNull | light/common/models.py:65-87 | When every year has a value, the query column and the property agree on every stored season |
| SeasonQueries.SamePropertyNameSameYearRows | light/common/models.py:49-75 | With `yr` unique and NOT NULL, two seasons with the same property name refer to the same two year rows |
| StoreProperties.OverlongNameRejected | light/common/models.py:12-175 | A confederation, country, competition or round name that is longer than its column, with a character other than a space past the column's length, fails with `DataError` |
| StoreProperties.OverlongNameExamples | tests/test_common.py:20-247 | The over-long names of the schema tests are each rejected with `DataError` |
| StoreProperties.OverlongGroupRejected | tests/test_matches.py:119-130 | A group label that does not fit two characters fails with `DataError` once the base row is accepted |
| StoreProperties.TrailingSpacesTruncated | light/common/models.py:19-19 | A confederation name longer than ten characters only by trailing spaces is committed as its first ten characters |
| StoreProperties.TrailingSpacesExample | light/common/models.py:19-19 | "UEFA" followed by seven spaces is stored as "UEFA" followed by six |
| StoreProperties.NegativeGoalsRejected | light/common/models.py:202-206 | A negative home or away goal count fails with `IntegrityError` for every kind of match |
| StoreProperties.NegativeShootoutGoalsRejected | light/common/models.py:271-275 | A negative shootout goal count fails with `IntegrityError` |
| StoreProperties.DuplicateYearRejected | light/common/models.py:49-49 | A year whose non-NULL `yr` is already stored fails with `IntegrityError` |
| StoreProperties.FreshYearAccepted | tests/test_common.py:127-137 | A year with a fresh id and a fresh or NULL `yr` is committed, and a non-NULL `yr` is then taken |
| StoreProperties.NullYearsAccepted | light/common/models.py:49-49 | Two years with a NULL `yr` are both committed |
| StoreProperties.DefaultsApplied | light/common/models.py:187-254 | Omitted goal counts are stored as 0 and an omitted `extra_time` as false. The stored phase is the class's identity |
| StoreProperties.SubtypeSharesId | tests/test_matches.py:54-149 | A committed subtype match has its base row and its subtype row under the same id |
| StoreProperties.LoadedRowsPresent | light/common/models.py:209-257 | A match loads only when its base row and the subtype row its detail shows are stored |
| StoreProperties.ShootoutNeedsMatch | light/common/models.py:260-266 | A shootout is committed only under the id of a stored match, and leaves the matches untouched |

## Left out

- Id allocation by the `Sequence`s is not modelled (`confed_id_seq` starting at 10, and so on). Ids are supplied by the caller of `Insert`, and a taken id is a primary-key violation.
- Relationships and backrefs are not modelled (`confederation`, `country`, `competitions`, `matches`, `deductions` and the rest). The objects a caller attaches to a new row are flushed as separate `Insert`s before it, and the row holds their ids.
- The `__repr__`s of confederations, countries, competitions and rounds are not modelled. They only format fields, and some of them read through a relationship.
- A non-integer `matchday` is not modelled. Python values of other types, and their coercion by the driver, have no counterpart in the typed rows.
- NULL names are not modelled. Name columns are non-null strings, and their lengths count characters with no Unicode normalisation.
- NULL is not modelled for the other nullable value columns: `Matches.date` (line 186), `Competitions.level` (121), `matchday` (227, 238, 253), `group` (239), and `Deductions.date` and `points` (285-286). The rows hold a value for each, because no constraint or derived attribute of the schema reads them, so NULL would be stored like any value.
- The competition discriminator `type` (a `String(20)`) is not modelled. The kind of a competition is a datatype, and its owner key is the only column a kind adds.
- The `type` discriminator of deductions is not modelled. In this schema a `Deductions` row always writes the identity `deductions` (light/common/models.py:295-298). The club and national subclasses of deductions (`light/club.py`, `light/natl.py`) are left out with those overlays.
- Database functions are outside the model: the range of the `Date` column, cascading deletes, transactions across several objects, and autoflush timing.
- The database's behaviour is assumed to be PostgreSQL's. An over-long text is an error unless its excess is all spaces, which are cut off, and each statement coerces its values before it checks its constraints. Other databases (SQLite, MySQL in non-strict mode) truncate or accept over-long text and are not modelled.
- The club and national-team overlays are not part of this model (`light/club.py`, `light/natl.py`), and neither is the test and session wiring (`conftest.py`, `interface.py`).
- Seasons.ReferenceDate: it returns no date where Python's `date()` raises, and it does not model the exception itself.
- SeasonQueries.SeasonName: it returns no name where reading `yr` through a missing year raises `AttributeError`, and it does not model the exception itself.
- SeasonQueries.SeasonReferenceDate: it returns no date where `date()` raises `TypeError` on a NULL end year, or `AttributeError` is raised for a missing year row, and it does not model the exceptions themselves.

## Findings

| source | as written | input that shows it | evidently intended | confidence | as-written member | corrected member |
|---|---|---|---|---|---|---|
| light/common/models.py:49 | `yr = Column(Integer, unique=True)` is nullable, and UNIQUE admits any number of NULLs. The `name` property then formats `None`, while the `name` expression yields NULL | a year row 1 with `yr` NULL and a season with `start_year_id = end_year_id = 1`: the property gives "None" and the column is NULL. Two such seasons over two NULL years both get the name "None" | `yr` is declared NOT NULL, so that every year row has a year value. The two forms of `name` then agree on every season, and a name identifies the year rows | medium, not executed | SeasonQueries.NullYearNameDisagrees, SeasonQueries.NullYearNamesCollide | SeasonQueries.InsertYrNotNull, SeasonQueries.NamesAgreeWhenYrNotNull, SeasonQueries.SamePropertyNameSameYearRows |
