# Laravel DataTables request compiler, in Dafny

This project models the `Datatables` class of the laravel-datatables-api
package (`src/Datatables.php`). The class takes a jQuery DataTables request and
does the following:

- it narrows the model's Eloquent query builder with a scope and extra `where`
  conditions;
- it orders the query by the first requested column, joining related tables
  when that column is a relation;
- it counts the rows (`recordsTotal`);
- it applies the global search and then the per-column searches;
- it counts again when a search ran (`recordsFiltered`);
- it returns one page of rows, each projected by the model's
  `getDatatablesData`.

The query builder is the sequence of clauses added to it (`Query.Clause`): a
`where`, an `orWhere`, a `whereIn`, a nested group, a `whereHas`, a join, an
`ORDER BY` and so on. Each is a constructor, not SQL text. The class is
`Datatables.Datatables`:

- its fields `queryBuilder`, `totalCount` and `filteredCount` are updated in
  place by its methods, as in the source;
- each loop of the source is a `while` loop proved equal to a recursive
  specification function;
- the closures that `searchByColumn` passes to `where` / `whereHas` are
  methods that build their own clause sequence.

The whole request is specified by the function `Datatables.Outcome`, and
`Datatables.Datatables.Respond` is proved to return exactly what it says.

The outside world is passed in as parameters:

- `count` is what `count()` returns for a clause sequence;
- `eval` gives the rows `get()` returns for a clause sequence, and
  `skip`/`take` slice them. The two are separate oracles because Laravel's
  `count()` runs `count(*)` and drops the `distinct()` that a BelongsToMany
  sort adds, so `recordsTotal` may count joined rows that `get()` merges;
- `project` stands for `getDatatablesData`;
- `Config.parseDate` stands for Carbon's `createFromFormat(...)->toDateString()`,
  and returns `None` where Carbon throws;
- the `Entity` record holds the model's capabilities:
  - whether it has `getDatatablesData` and `scopeSearch`;
  - which `scope<Name>` methods exist;
  - its `getRelationFields` catalog, which gives each relation's class and table;
  - which of its columns the schema reports as `json`;
- `Driver` only decides between SQLite's `strftime` and `DATE_FORMAT`.

Exceptions are `Common.Error` values:

- the missing `getDatatablesData`;
- the missing `scopeSearch`;
- a date that Carbon cannot parse.

The exceptions that sorting can raise are not modelled (see "## Left out").

PHP behaviour the code depends on is written out in `PhpStrings`:

- `empty("0")` is true;
- `Str::contains`, `Str::startsWith` and `Str::endsWith` are false for an
  empty needle;
- `explode` splits left to right;
- `trim` strips a default character list, or a given one;
- `strtolower` changes ASCII letters only, as in PHP 8.2 and later;
- the two `strtr` calls are modelled as written;
- a string array key names a list position only when it is that position's
  canonical decimal text.

Modules:

- `Common`: Option, Result, Error;
- `PhpStrings`: PHP string functions;
- `Query`: the clause datatype;
- `Request`: the request, the model and the configuration;
- `Filters`: `applyScope` and `applyExtraWhere`;
- `Sort`: `sortByColumn`;
- `Search`: `search` and `searchByColumn`;
- `Datatables`: `response`, `getFormatedData`, the class, and the request-level
  properties.

Notes on what the code does, which the model follows as written:

- Global search, splitting: the value is split on a single space character,
  not on whitespace in general (`src/Datatables.php:235`). Each piece is then
  trimmed.
- Global search, "0": a search value of "0" is PHP-empty, so the search is
  ignored (`src/Datatables.php:227`). Per-column search keeps "0"
  (`src/Datatables.php:261`).
- Global search, reporting: `search()` reports that a search occurred whenever
  the value is not empty, even when no term survives trimming
  (`src/Datatables.php:246`). `recordsFiltered` is then counted again
  (`Search.BlankSearchOccurs`).
- Relation group, date ranges: inside a relation's OR group, the date-range
  bounds are added with `whereRaw`, that is with AND (`src/Datatables.php:298-301`).
- Relation group, nested sub-fields: a nested through-relation is added with
  `whereHas`, also AND (`src/Datatables.php:326`). Only the plain sub-fields
  are ORed.
- Relation group, date range on a relation: the date-range reading of a value
  applies to the relation's plain sub-fields too (`src/Datatables.php:295`),
  before the exact-match and date-column readings.
- Sorting, `data` check: sorting is skipped only when the column's `data` is
  null (`src/Datatables.php:172-175`). An empty `data` gives `orderBy("")`.
- Plain search: the plain per-column search is `LIKE %v%`. Whether it ignores
  case is left to the database collation; the model does not lower-case it.

## Model

| member | source | states |
|---|---|---|
| PhpStrings.Explode | src/Datatables.php:235 | `explode` always gives at least one piece |
| PhpStrings.ExplodeJoin | src/Datatables.php:235 | joining the pieces of `explode(sep, s)` with `sep` gives back `s` |
| PhpStrings.ExplodeFirst | src/Datatables.php:268 | the first piece is the prefix of `s` before the first occurrence of `sep` (all of `s` when there is none); there are two or more pieces exactly when `sep` occurs |
| PhpStrings.ExplodeTail | src/Datatables.php:268 | when there are two pieces or more, the pieces after the first are the pieces of the text after the first separator |
| PhpStrings.ExplodeSecond | src/Datatables.php:268 | the second piece is the first piece of the text after the first separator |
| PhpStrings.ExplodePiecesFree | src/Datatables.php:235 | no piece of `explode(sep, s)` contains `sep` |
| PhpStrings.SkipFrom | src/Datatables.php:238 | the first index at or after `i` whose character is not stripped, with every character before it stripped |
| PhpStrings.TrimShape | src/Datatables.php:238 | `trim(s, cs)` is a slice of `s` with only characters of `cs` cut off on either side, and it neither starts nor ends with one |
| PhpStrings.TrimIdempotent | src/Datatables.php:235-238 | trimming a trimmed value changes nothing, so the second `trim` of a term is a no-op |
| PhpStrings.TrimKeepsChars | src/Datatables.php:238 | every character of a trimmed value occurs in the original |
| PhpStrings.ToLower | src/Datatables.php:280 | `strtolower` keeps the length, maps each character on its own, and leaves no ASCII capital |
| PhpStrings.SwapSeparators | src/Datatables.php:312 | `strtr(v, '/-', '-/')` keeps the length and swaps '/' and '-' at every position |
| PhpStrings.SwapInvolution | src/Datatables.php:312 | swapping twice gives back the original value |
| PhpStrings.SwapChanges | src/Datatables.php:311-312 | the swap changes the value exactly when it contains a '/' or a '-' |
| PhpStrings.SqlDateFormat | src/Datatables.php:306-308 | the translated date format is never shorter than the display format |
| PhpStrings.SqlDateFormatConcat | src/Datatables.php:306-308 | the format is translated piece by piece: the translation of a concatenation is the concatenation of the translations |
| PhpStrings.SqlDateFormatKeeps | src/Datatables.php:306-308 | a format without d, j, m, Y or y is left unchanged |
| PhpStrings.Decimal | src/Datatables.php:172 | the decimal text of a position is a non-empty digit string that starts with '0' only for position 0 |
| PhpStrings.DecimalRoundTrip | src/Datatables.php:172 | every list position is named by its decimal text as an array key |
| PhpStrings.ParseIndexCanonical | src/Datatables.php:172 | an array key names a position only when it is exactly that position's decimal text |
| Query.OrderKeysAppend | src/Datatables.php:170-218 | the ORDER BY keys of two clause sequences in a row add up |
| Filters.ScopeClauses | src/Datatables.php:134-149 | `applyScope` adds at most one call: the named scope with the list's other items as arguments, and only when the model has that scope |
| Filters.FilterClause | src/Datatables.php:159-161 | an array value gives `whereIn`; a scalar gives an AND `where` on that field and value, with `LIKE` exactly when it starts or ends with '%' and `=` otherwise |
| Filters.FilterClausesAt | src/Datatables.php:156-163 | `applyExtraWhere` adds one clause per entry, the i-th from the i-th entry |
| Sort.SortField | src/Datatables.php:172 | `columns[order[0].column].data` is the data of the column whose decimal position is the index; `None` when no column has that position |
| Sort.FieldOrders | src/Datatables.php:207-209 | the BelongsToMany and HasOne loops add one ORDER BY per sub-field on the related table, in order, in the requested direction |
| Sort.BelongsToOrdersShape | src/Datatables.php:189-200 | the BelongsTo loop adds exactly one ORDER BY key per sub-field, all in the requested direction, and besides them only joins |
| Sort.FieldOrdersKeys | src/Datatables.php:207-215 | the BelongsToMany and HasOne loops add exactly one ORDER BY key per sub-field |
| Sort.SortNeverFilters | src/Datatables.php:170-218 | sorting adds no condition, and every ORDER BY it adds is in the requested direction |
| Sort.SortKeys | src/Datatables.php:178-216 | a field that is not a relation gives one ORDER BY key; a relation gives one per declared sub-field; HasMany gives exactly one (the count); MorphTo and other relation classes give none |
| Sort.RelatedSortKeys | src/Datatables.php:185-216 | the ORDER BY keys of each relation class: one per sub-field for BelongsTo, BelongsToMany and HasOne, one for HasMany, none otherwise |
| Search.TermGroups | src/Datatables.php:237-244 | one AND group per term, the i-th calling the search scope with the i-th term |
| Common.Selected | src/Datatables.php:237-243 | the indices of the elements a loop keeps, all of them and in increasing order |
| Search.GlobalSearch | src/Datatables.php:225-247 | nothing, and no search reported, for a PHP-empty value; the missing-scope error exactly when the value is not empty and there is no search scope; otherwise a search is reported, and every clause is an AND group |
| Search.SearchTermsAreWords | src/Datatables.php:235-239 | every term searched for is PHP-non-empty, holds no space, and has no whitespace at either end |
| Search.BlankSearchOccurs | src/Datatables.php:227-246 | every non-empty value made only of whitespace reports a search but adds no clause |
| Search.KeptTermsSelected | src/Datatables.php:237-243 | the kept terms are, in order, the trimmed texts of exactly the pieces whose trimmed text is not PHP-empty |
| Search.GlobalSearchTerms | src/Datatables.php:233-246 | for a non-empty value and a model with a search scope, the search adds, in piece order, one AND group searching the trimmed text of each piece of `explode(' ', trim(v))` that is not PHP-empty, and nothing else |
| Search.HasColumnSearch | src/Datatables.php:261 | a column takes part in the search exactly when its value is not "" ("0" included) |
| Search.IsExact | src/Datatables.php:277 | a value is an exact match exactly when it is non-empty and both starts and ends with a bar |
| Search.ExactValueShape | src/Datatables.php:278 | the exact-match value is the search value with its surrounding bars cut off, and it neither starts nor ends with a bar |
| Search.DateSides | src/Datatables.php:268 | the two sides of a date range are the text before the first delimiter and the text after it up to the next one; neither holds the delimiter |
| Search.DateSide | src/Datatables.php:269-274 | an empty side adds nothing; a non-empty side adds one bound on its parsed date, or fails with that side's text when it does not parse |
| Search.DateRangeClauses | src/Datatables.php:267-274 | a date range can fail only with a date that does not parse |
| Search.DateRangeShape | src/Datatables.php:267-274 | a date range fails exactly when a non-empty side does not parse; otherwise it adds a lower bound for a non-empty first side, then an upper bound for a non-empty second side |
| Search.DirectClauses | src/Datatables.php:266-283 | a direct column fails only on a value holding the date delimiter |
| Search.DirectClassification | src/Datatables.php:267-283 | exactly one reading per value, by priority: date range, then null marker (empty or NULL), then equality for a value wrapped in bars, then a lower-cased JSON LIKE for a json column, else `LIKE %v%` |
| Search.DateCandidates | src/Datatables.php:309-313 | the candidates are the value, plus the swapped value exactly when the swap changes it; swapping the second gives back the first |
| Search.AnyLikeClauses | src/Datatables.php:331-333 | one OR LIKE per field of a nested list leaf, in order |
| Search.SubFieldClauses | src/Datatables.php:294-337 | a sub-field fails only on a date range that does not parse (its readings: `Search.SubFieldClassification`) |
| Search.SubFieldClassification | src/Datatables.php:294-337 | a plain sub-field gets the date-range bounds on it when the date delimiter occurs; else an OR equality with the text inside the bars; else, for a date column, the LIKEs over the date candidates on the qualified column; else an OR `LIKE %v%` on it. A nested sub-field gets a `whereHas` on its through-relation around its leaf's clauses |
| Search.SubFieldsClauses | src/Datatables.php:293-338 | the loop over the sub-fields fails only on a date range that does not parse (its clauses: `Search.SubFieldsSplit`, `Search.SubFieldsEach`) |
| Search.SubFieldsAppend | src/Datatables.php:293-338 | the loop over `a + b` is the loop over `a` followed by the loop over `b`: the first error wins, else the clauses are concatenated in order |
| Search.SubFieldsSplit | src/Datatables.php:293-338 | around any sub-field, the loop gives the clauses of the sub-fields before it, then its own, then those of the sub-fields after it, or the first error among them |
| Search.SubFieldsEach | src/Datatables.php:293-338 | the loop succeeds exactly when every sub-field does; when it fails, the error is that of the first sub-field that fails, all before it having succeeded |
| Search.DateLikeClausesAt | src/Datatables.php:318-321 | candidate i adds exactly clauses 2i (OR LIKE on the raw column) and 2i+1 (LIKE on the formatted date) |
| Search.RelationDateColumn | src/Datatables.php:305-321 | a date sub-field (no date range, not wrapped in bars) gives exactly the date-like clauses over the value's date candidates, on the qualified column and on its date rendered in the SQL form of the display format; two OR LIKE clauses per candidate |
| Search.MorphFieldClauses | src/Datatables.php:346-348 | one LIKE per field of a morph target, the first with AND and the others with OR |
| Search.MorphClauses | src/Datatables.php:344-350 | one `orWhereHasMorph` per declared target, on that target's models and fields |
| Search.RelationClauses | src/Datatables.php:285-352 | a relation column fails only on a value holding the date delimiter (its readings: `Search.RelationClassification`) |
| Search.RelationClassification | src/Datatables.php:285-352 | for a non-MorphTo relation: `whereDoesntHave(field)` whenever the null marker occurs; else one `whereHas(field)` around the AND group of the sub-field loop's clauses, or that loop's error. For MorphTo: the AND group of one `orWhereHasMorph` per target |
| Search.ColumnClauses | src/Datatables.php:265-354 | a searched column adds exactly one AND group, or fails on a date it cannot parse |
| Search.ColumnSearch | src/Datatables.php:254-359 | the column search fails only on a date; every clause it adds is an AND group; it adds nothing when it reports no search |
| Search.ColumnSearchSelected | src/Datatables.php:257-262 | a column search that succeeds adds exactly one clause per column whose value is not "", in column order, and that clause is the AND group the column's own search builds |
| Search.ColumnSearchShape | src/Datatables.php:257-262 | a search is reported exactly when some column's value is not ""; at most one group per column is added; a failure comes from a column whose value holds the date delimiter |
| Search.DateLike | src/Datatables.php:318-321 | the candidate loop builds exactly the date-like clauses of its candidates |
| Search.AnyLike | src/Datatables.php:330-334 | the list-leaf loop builds exactly one OR LIKE per field |
| Search.SubFieldGroup | src/Datatables.php:292-339 | the `whereHas` closure builds the clauses of its sub-fields, or ends with the first date that does not parse |
| Search.FailureStops | src/Datatables.php:298-301 | once one sub-field throws, the whole loop ends in that error |
| Search.MorphFields | src/Datatables.php:346-348 | the morph-field loop builds exactly the morph target's clauses |
| Search.MorphGroup | src/Datatables.php:343-351 | the MorphTo closure builds one `orWhereHasMorph` per target |
| Search.ColumnGroup | src/Datatables.php:265-354 | the closure `searchByColumn` passes to `where` builds the column's group, or its error |
| Datatables.SortRequested | src/Datatables.php:114 | sorting is requested exactly when there is an order entry whose column index is not "" ("0" included) |
| Datatables.SortRequestKeys | src/Datatables.php:170-218 | only `order[0]` is honoured: a column with null `data` adds nothing, and otherwise the ORDER BY keys are those its field calls for |
| Datatables.Compile | src/Datatables.php:100-124 | the base query is the scope, extra conditions and ordering; no search clause is added when no search is reported; every search clause is an AND group |
| Datatables.Page | src/Datatables.php:368-370 | every row for length -1; otherwise at most `length` rows, the rows from `start` on |
| Datatables.Project | src/Datatables.php:376-378 | one record per fetched row, in fetch order: the i-th record is the projection of the i-th row |
| Datatables.Outcome | src/Datatables.php:100-127 | the response echoes `draw` and holds no more records than the requested length |
| Datatables.RespondErrors | src/Datatables.php:100-127 | the request fails with the missing projection exactly when there is no `getDatatablesData`; with the missing search scope exactly when the global value is not empty and there is no `scopeSearch`; with a bad date only when a column value holds the date delimiter; the model has no other failure |
| Datatables.CountsMatchQueries | src/Datatables.php:118-124 | `recordsTotal` counts the query before any search and `recordsFiltered` counts the final query, also when the count was not redone |
| Datatables.SortFieldIgnoresSearch | src/Datatables.php:172 | the sort field does not depend on the columns' search values |
| Datatables.TotalIgnoresSearch | src/Datatables.php:118 | requests that differ only in their search values have the same base query and the same `recordsTotal` |
| Datatables.NoSearchSameCounts | src/Datatables.php:124 | with no search value anywhere the request succeeds and `recordsFiltered` equals `recordsTotal` |
| Datatables.AndGroupsNarrow | src/Datatables.php:240-242 | if one more AND group never raises the count, appending any number of AND groups never does either |
| Datatables.FilteredAtMostTotal | src/Datatables.php:124 | under that assumption, `recordsFiltered` never exceeds `recordsTotal` |
| Datatables.ColumnFailureStops | src/Datatables.php:265-273 | once a column's group throws, the whole column search ends in that error |
| Datatables.Datatables.constructor | src/Datatables.php:77-93 | an empty builder on the model, with the request, configuration, driver and relation catalog stored |
| Datatables.Datatables.Open | src/Datatables.php:84-86 | construction fails exactly when the model has no `getDatatablesData`, and otherwise gives a valid object with an empty builder |
| Datatables.Datatables.ApplyScope | src/Datatables.php:134-149 | the builder gains the scope clauses and nothing else changes |
| Datatables.Datatables.ApplyExtraWhere | src/Datatables.php:156-163 | the builder gains one clause per extra condition, in order |
| Datatables.Datatables.SortByColumn | src/Datatables.php:170-218 | the builder gains the sort clauses of `order[0]`'s column, nothing when its `data` is null |
| Datatables.Datatables.SortOnRelation | src/Datatables.php:180-216 | the builder gains the joins, select, distinct and ORDER BYs of the relation's class |
| Datatables.Datatables.OrderEach | src/Datatables.php:207-215 | the builder gains one ORDER BY per sub-field |
| Datatables.Datatables.JoinOrders | src/Datatables.php:189-200 | the builder gains the BelongsTo loop's joins and ORDER BYs |
| Datatables.Datatables.GlobalSearchStep | src/Datatables.php:225-247 | the builder gains the term groups and the step reports the search; on the missing scope it fails and the builder is unchanged |
| Datatables.Datatables.AddTermGroups | src/Datatables.php:237-244 | the builder gains one AND group per kept term |
| Datatables.Datatables.SearchByColumn | src/Datatables.php:254-359 | the builder gains the column groups and the step reports whether a column was searched, or it ends in the column search's error |
| Datatables.Datatables.FormattedData | src/Datatables.php:366-380 | the response holds `draw`, both counts and the projected page of the current builder |
| Datatables.Datatables.BuildBase | src/Datatables.php:102-116 | the builder gains the base query: scope, extra conditions and ordering, in that order |
| Datatables.Datatables.ScopeIfRequested | src/Datatables.php:102-104 | the scope step runs only when a scope is requested |
| Datatables.Datatables.FilterIfRequested | src/Datatables.php:106-108 | the extra-condition step runs only when there are extra conditions |
| Datatables.Datatables.SortIfRequested | src/Datatables.php:114-116 | the sort step runs only when sorting is requested |
| Datatables.Datatables.Respond | src/Datatables.php:100-127 | `response()` returns exactly `Outcome`; its builder ends as the final query and its counts are the response's |

## Left out

- Running queries: `query()`, `count()`, `get()`, `skip`/`take` and
  `getConnection()->getDriverName()`. They are the `count` and `eval` oracles
  and the `Driver` parameter. Nothing is said about which rows a clause
  selects or how many it counts, except in the `AndNarrows` assumption of
  `Datatables.FilteredAtMostTotal`.
- Raw SQL text. `DB::raw`, `whereRaw` and the date expressions are tagged
  clauses, not strings, so quoting and SQL injection are not modelled.
- Carbon date parsing. It is `Config.parseDate`, and date arithmetic is out of
  scope.
- `Schema::hasTable` and `getColumnType`. They are the set `Entity.jsonColumns`.
- `config()`, `new $model()`, `method_exists` and the `ucwords` built into the
  scope-method name. They are the `Config` record and the capability fields of
  `Entity`.
- `scopeEagerLoading` (`src/Datatables.php:110-112`). It only adds eager
  loading, so it leaves the selected rows and the counts unchanged.
- `response()->json` encoding and the body of `getDatatablesData`. The latter
  is the `project` parameter.
- `in_array` at `src/Datatables.php:305` is PHP's loose comparison. The model
  compares strings exactly.
- Request values that PHP would coerce or reject are not modelled:
  - a non-numeric `start`;
  - a negative `length` other than -1;
  - a non-string search value.
- A catalog entry that disagrees with the relation object PHP gets back is not
  representable, because a relation's class and its declared fields are one
  value here. One example is a MorphTo relation listed with plain fields.
- Builder state after an exception: `Datatables.Datatables.Respond` says
  nothing about `queryBuilder` once it returns an error, because PHP abandons
  the builder then.
- Datatables.Outcome: its own contract states only the echoed `draw` and the
  page bound. The counts and errors are stated by the lemmas beside it
  (`CountsMatchQueries`, `RespondErrors`, `NoSearchSameCounts`,
  `FilteredAtMostTotal`).
- Sort.SortClauses: sorting never fails in the model, but PHP throws in three cases:
  - On a MorphTo field, `SortClauses` adds nothing. Laravel's `MorphTo` extends
    `BelongsTo`, so PHP takes the BelongsTo branch (`src/Datatables.php:185-200`).
    There, `$otherField[0]` on the morph entry's arrays raises an ErrorException.
  - A nested sub-field in the BelongsToMany or HasOne loops is an array there.
    So is a list leaf in the BelongsTo loop. PHP raises an array-to-string
    ErrorException at `src/Datatables.php:197`, `207` and `213`. The model
    orders by the text "Array" instead (`Sort.SubFieldLabel`, `Sort.LeafLabel`).
  - A direction other than `asc` or `desc`, in any case, makes Laravel's
    `orderBy` throw an InvalidArgumentException. The model passes any direction
    through.
- Datatables.RespondErrors: its "no other failure" holds of the model only. The
  sort-time exceptions under `Sort.SortClauses` are not among its errors. Nor
  are the errors PHP raises for a missing request key that it reads directly.
  Laravel turns the "undefined array key" warning into an ErrorException. The
  model reads such a key as "", `[]` or `None`, and answers instead. The keys
  are:
  - `columns` (`src/Datatables.php:259`);
  - every column's `search.value` (`260`), and a searched column's `data` (`264`);
  - `order[0].column` when `order` is set (`114`);
  - `order[0].dir` (`176`);
  - `start` and `length` (`368-369`);
  - `draw` (`373`).
- Concurrency and HTTP plumbing: the request object and the routing.
