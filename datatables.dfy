/**
 * The `Datatables` class: it turns one DataTables request into clauses on the
 * model's query builder, counts the rows before and after the searches, and
 * returns one page of projected rows.
 *
 * Running a query is left to two oracles on clause sequences: `count` is what
 * `count()` returns and `eval` the rows `get()` returns, with `skip`/`take`
 * slicing those rows. They are kept apart because Laravel's `count()` runs
 * `count(*)` and drops a `distinct()` the sort may have added, so the count
 * need not be the number of rows `get()` returns.
 */
module Datatables {
  import opened Common
  import opened PhpStrings
  import opened Query
  import opened Request
  import opened Filters
  import opened Sort
  import opened Search

  /** A row of the model's table. */
  datatype Row = Row(attributes: map<string, string>)

  /** What `getDatatablesData` makes of a row for the response. */
  type Record = map<string, string>

  /** The JSON body of the response. */
  datatype Response = Response(draw: string, recordsTotal: nat, recordsFiltered: nat, data: seq<Record>)

  // ===========================================================================
  // The request-level specification

  /** `isset(order) && (! empty(order[0].column) || order[0].column === '0')`. */
  predicate SortRequested(order: seq<Order>)
    ensures SortRequested(order) <==> |order| > 0 && order[0].column != ""
  {
    |order| > 0 && (!IsEmpty(order[0].column) || order[0].column == "0")
  }

  /** What `sortByColumn` adds: nothing when the indexed column is missing or has no field. */
  function SortRequestClauses(req: Request, e: Entity): seq<Clause>
    requires |req.order| > 0
  {
    match SortField(req.columns, req.order[0].column)
    case None => []
    case Some(field) => SortClauses(field, req.order[0].dir, e.table, Catalog(e))
  }

  /**
   * Only `order[0]` is honoured: a column whose `data` is null adds nothing, and
   * otherwise the ORDER BY keys are those its field calls for.
   */
  lemma SortRequestKeys(req: Request, e: Entity)
    requires |req.order| > 0
    ensures forall i :: 0 <= i < |req.columns| && req.order[0].column == Decimal(i) && req.columns[i].data.None? ==>
      SortRequestClauses(req, e) == []
    ensures OrderKeys(SortRequestClauses(req, e))
      == match SortField(req.columns, req.order[0].column)
         case None => 0
         case Some(field) => ExpectedKeys(field, Catalog(e))
  {
    match SortField(req.columns, req.order[0].column)
    case None =>
    case Some(field) =>
      SortKeys(field, req.order[0].dir, e.table, Catalog(e));
  }

  function ScopeStep(req: Request, e: Entity): seq<Clause> {
    if ScopeRequested(req.scope) then ScopeClauses(req.scope.value, e.scopes) else []
  }

  function SortStep(req: Request, e: Entity): seq<Clause> {
    if SortRequested(req.order) then SortRequestClauses(req, e) else []
  }

  /** The builder `recordsTotal` counts: scope, extra conditions and ordering, before any search. */
  function BaseQuery(req: Request, e: Entity): seq<Clause> {
    ScopeStep(req, e) + FilterClauses(req.extraWhere) + SortStep(req, e)
  }

  /**
   * The base query, the groups the two searches add to it, and whether either
   * search reported that it ran.
   */
  datatype Plan = Plan(base: seq<Clause>, searches: seq<Clause>, searched: bool) {
    /** The query the page is read from. */
    function Final(): seq<Clause> {
      base + searches
    }
  }

  /** The clauses `response()` builds, or the exception one of its steps throws. */
  function Compile(req: Request, e: Entity, cfg: Config, driver: Driver): (r: Result<Plan>)
    ensures r.Ok? ==> r.value.base == BaseQuery(req, e)
    ensures r.Ok? && !r.value.searched ==> r.value.searches == []
    ensures r.Ok? ==> forall c :: c in r.value.searches ==> c.Group? && c.conj == And
  {
    var base := BaseQuery(req, e);
    match GlobalSearch(req.search, e.hasSearchScope)
    case Err(x) => Err(x)
    case Ok(global) =>
      match ColumnSearch(req.columns, e.table, Catalog(e), e.jsonColumns, cfg, driver)
      case Err(x) => Err(x)
      case Ok(columns) =>
        Ok(Plan(base, global.clauses + columns.clauses, global.occurred || columns.occurred))
  }

  /** `skip(start)->take(length)->get()`, or every row when the length is -1. */
  function Page(rows: seq<Row>, start: nat, length: Length): (r: seq<Row>)
    ensures length.All? ==> r == rows
    ensures length.Limit? ==> |r| <= length.count
    ensures length.Limit? ==> |r| == if start >= |rows| then 0 else Min(length.count, |rows| - start)
    ensures length.Limit? ==> forall i :: 0 <= i < |r| ==> r[i] == rows[start + i]
  {
    match length
    case All => rows
    case Limit(count) =>
      if start >= |rows| then [] else rows[start..Min(start + count, |rows|)]
  }

  function Min(a: int, b: int): int {
    if a <= b then a else b
  }

  /** `$collection->map(fn ($model) => $model->getDatatablesData())`. */
  function Project(rows: seq<Row>, project: Row -> Record): (r: seq<Record>)
    ensures |r| == |rows|
    ensures forall i :: 0 <= i < |rows| ==> r[i] == project(rows[i])
  {
    seq(|rows|, i requires 0 <= i < |rows| => project(rows[i]))
  }

  /**
   * The whole request: the constructor's check, then the clauses of `response()`,
   * the two counts and the page. `recordsFiltered` is counted again only when a
   * search reported that it ran.
   */
  function Outcome(req: Request, e: Entity, cfg: Config, driver: Driver,
                   count: seq<Clause> -> nat, eval: seq<Clause> -> seq<Row>, project: Row -> Record): (r: Result<Response>)
    ensures r.Ok? ==> r.value.draw == req.draw
    ensures r.Ok? && req.length.Limit? ==> |r.value.data| <= req.length.count
  {
    if !e.hasProjection then Err(MissingProjection)
    else
      match Compile(req, e, cfg, driver)
      case Err(x) => Err(x)
      case Ok(plan) =>
        var total := count(plan.base);
        var filtered := if plan.searched then count(plan.Final()) else total;
        Ok(Response(req.draw, total, filtered, Project(Page(eval(plan.Final()), req.start, req.length), project)))
  }

  // ===========================================================================
  // Properties of a response

  /** Which exception a request ends in, and when. */
  lemma RespondErrors(req: Request, e: Entity, cfg: Config, driver: Driver,
                      count: seq<Clause> -> nat, eval: seq<Clause> -> seq<Row>, project: Row -> Record)
    ensures var r := Outcome(req, e, cfg, driver, count, eval, project);
      && (r == Err(MissingProjection) <==> !e.hasProjection)
      && (r == Err(MissingSearchScope) <==> e.hasProjection && !IsEmpty(req.search) && !e.hasSearchScope)
      && (r.Err? && r.error.BadDate? ==>
            exists i :: 0 <= i < |req.columns| && Contains(req.columns[i].search, cfg.dateDelimiter))
      && (r.Err? <==> !e.hasProjection || (!IsEmpty(req.search) && !e.hasSearchScope)
                      || ColumnSearch(req.columns, e.table, Catalog(e), e.jsonColumns, cfg, driver).Err?)
  {
    ColumnSearchShape(req.columns, e.table, Catalog(e), e.jsonColumns, cfg, driver);
  }

  /**
   * `recordsTotal` counts the query before the searches and `recordsFiltered`
   * the query after them, also when no search ran and the count was not redone.
   */
  lemma CountsMatchQueries(req: Request, e: Entity, cfg: Config, driver: Driver,
                           count: seq<Clause> -> nat, eval: seq<Clause> -> seq<Row>, project: Row -> Record)
    requires Outcome(req, e, cfg, driver, count, eval, project).Ok?
    ensures Compile(req, e, cfg, driver).Ok?
    ensures Outcome(req, e, cfg, driver, count, eval, project).value.recordsTotal
      == count(BaseQuery(req, e))
    ensures Outcome(req, e, cfg, driver, count, eval, project).value.recordsFiltered
      == count(Compile(req, e, cfg, driver).value.Final())
  {
    var plan := Compile(req, e, cfg, driver).value;
    if !plan.searched {
      assert plan.Final() == plan.base;
    }
  }

  /** Two requests that differ at most in their search values. */
  predicate SameExceptSearch(a: Request, b: Request) {
    && a.scope == b.scope && a.extraWhere == b.extraWhere && a.order == b.order
    && |a.columns| == |b.columns|
    && forall i :: 0 <= i < |a.columns| ==> a.columns[i].data == b.columns[i].data
  }

  lemma SortFieldIgnoresSearch(a: seq<Column>, b: seq<Column>, index: string)
    requires |a| == |b| && forall i :: 0 <= i < |a| ==> a[i].data == b[i].data
    ensures SortField(a, index) == SortField(b, index)
  {
    var fa := SortField(a, index);
    var fb := SortField(b, index);
    if fa.Some? {
      var i :| 0 <= i < |a| && index == Decimal(i) && fa == a[i].data;
      assert fb == b[i].data;
    } else if fb.Some? {
      var i :| 0 <= i < |b| && index == Decimal(i) && fb == b[i].data;
      assert fa == a[i].data;
    }
  }

  /** The search values do not change the base query, so they never change `recordsTotal`. */
  lemma TotalIgnoresSearch(a: Request, b: Request, e: Entity, cfg: Config, driver: Driver,
                           count: seq<Clause> -> nat, eval: seq<Clause> -> seq<Row>, project: Row -> Record)
    requires SameExceptSearch(a, b)
    ensures BaseQuery(a, e) == BaseQuery(b, e)
    ensures Outcome(a, e, cfg, driver, count, eval, project).Ok? && Outcome(b, e, cfg, driver, count, eval, project).Ok? ==>
      Outcome(a, e, cfg, driver, count, eval, project).value.recordsTotal
        == Outcome(b, e, cfg, driver, count, eval, project).value.recordsTotal
  {
    if |a.order| > 0 {
      SortFieldIgnoresSearch(a.columns, b.columns, a.order[0].column);
    }
  }

  /** A request without any search value succeeds (given a projection) and filters nothing out. */
  lemma NoSearchSameCounts(req: Request, e: Entity, cfg: Config, driver: Driver,
                           count: seq<Clause> -> nat, eval: seq<Clause> -> seq<Row>, project: Row -> Record)
    requires e.hasProjection && IsEmpty(req.search)
    requires forall i :: 0 <= i < |req.columns| ==> req.columns[i].search == ""
    ensures Outcome(req, e, cfg, driver, count, eval, project).Ok?
    ensures Outcome(req, e, cfg, driver, count, eval, project).value.recordsFiltered
      == Outcome(req, e, cfg, driver, count, eval, project).value.recordsTotal
  {
    ColumnSearchShape(req.columns, e.table, Catalog(e), e.jsonColumns, cfg, driver);
  }

  /**
   * The database assumption behind `recordsFiltered <= recordsTotal`: one more
   * AND condition never selects more rows.
   */
  ghost predicate AndNarrows(count: seq<Clause> -> nat) {
    forall q: seq<Clause>, g: seq<Clause> :: count(q + [Group(And, g)]) <= count(q)
  }

  lemma {:induction false} AndGroupsNarrow(count: seq<Clause> -> nat, q: seq<Clause>, groups: seq<Clause>)
    requires AndNarrows(count)
    requires forall c :: c in groups ==> c.Group? && c.conj == And
    ensures count(q + groups) <= count(q)
  {
    if groups != [] {
      var init := groups[..|groups| - 1];
      var last := groups[|groups| - 1];
      AndGroupsNarrow(count, q, init);
      assert groups == init + [last];
      assert q + groups == (q + init) + [Group(And, last.body)];
      assert count((q + init) + [Group(And, last.body)]) <= count(q + init);
    } else {
      assert q + groups == q;
    }
  }

  /** Whenever extra AND conditions narrow the rows, the filtered count never exceeds the total. */
  lemma FilteredAtMostTotal(req: Request, e: Entity, cfg: Config, driver: Driver,
                            count: seq<Clause> -> nat, eval: seq<Clause> -> seq<Row>, project: Row -> Record)
    requires AndNarrows(count)
    requires Outcome(req, e, cfg, driver, count, eval, project).Ok?
    ensures Outcome(req, e, cfg, driver, count, eval, project).value.recordsFiltered
      <= Outcome(req, e, cfg, driver, count, eval, project).value.recordsTotal
  {
    var plan := Compile(req, e, cfg, driver).value;
    var groups := plan.searches;
    CountsMatchQueries(req, e, cfg, driver, count, eval, project);
    AndGroupsNarrow(count, plan.base, groups);
  }

  // ===========================================================================
  // The class

  class Datatables {
    const options: Request
    const model: Entity
    const relations: map<string, Relation>
    const config: Config
    const driver: Driver
    var queryBuilder: seq<Clause>
    var totalCount: nat
    var filteredCount: nat

    /** The catalog is the model's, and the model can project its rows. */
    predicate Valid() {
      relations == Catalog(model) && model.hasProjection
    }

    /** The constructor once `getDatatablesData` is known to exist: an empty builder on the model. */
    constructor(request: Request, entity: Entity, cfg: Config, drv: Driver)
      requires entity.hasProjection
      ensures Valid()
      ensures options == request && model == entity && config == cfg && driver == drv
      ensures queryBuilder == [] && totalCount == 0 && filteredCount == 0
    {
      options := request;
      model := entity;
      relations := if entity.relationFields.Some? then entity.relationFields.value else map[];
      config := cfg;
      driver := drv;
      queryBuilder := [];
      totalCount := 0;
      filteredCount := 0;
    }

    /** `new Datatables(...)`: fails exactly when the model has no `getDatatablesData`. */
    static method Open(request: Request, entity: Entity, cfg: Config, drv: Driver)
      returns (r: Result<Datatables>)
      ensures r.Err? <==> !entity.hasProjection
      ensures r.Err? ==> r.error == MissingProjection
      ensures r.Ok? ==> fresh(r.value) && r.value.Valid() && r.value.queryBuilder == []
      ensures r.Ok? ==> r.value.options == request && r.value.model == entity
      ensures r.Ok? ==> r.value.config == cfg && r.value.driver == drv
    {
      if !entity.hasProjection {
        return Err(MissingProjection);
      }
      var d := new Datatables(request, entity, cfg, drv);
      r := Ok(d);
    }

    /** `applyScope()`, called only when a scope was requested. */
    method ApplyScope()
      requires ScopeRequested(options.scope)
      modifies this
      ensures queryBuilder == old(queryBuilder) + ScopeClauses(options.scope.value, model.scopes)
      ensures totalCount == old(totalCount) && filteredCount == old(filteredCount)
    {
      match options.scope.value {
        case ScopeName(name) =>
          if name in model.scopes {
            queryBuilder := queryBuilder + [ScopeCall(name, [])];
          }
        case ScopeList(items) =>
          if items[0] in model.scopes {
            queryBuilder := queryBuilder + [ScopeCall(items[0], items[1..])];
          }
      }
    }

    /** `applyExtraWhere()`: one condition per entry, in order. */
    method ApplyExtraWhere()
      modifies this
      ensures queryBuilder == old(queryBuilder) + FilterClauses(options.extraWhere)
      ensures totalCount == old(totalCount) && filteredCount == old(filteredCount)
    {
      var entries := options.extraWhere;
      var i := 0;
      while i < |entries|
        invariant 0 <= i <= |entries|
        invariant queryBuilder == old(queryBuilder) + FilterClauses(entries[..i])
        invariant totalCount == old(totalCount) && filteredCount == old(filteredCount)
      {
        assert entries[..i + 1][..i] == entries[..i];
        var (field, value) := entries[i];
        match value {
          case Values(items) =>
            queryBuilder := queryBuilder + [WhereIn(field, items)];
          case Scalar(text) =>
            var op := if StartsWith(text, "%") || EndsWith(text, "%") then Like else Eq;
            queryBuilder := queryBuilder + [Where(And, field, op, text)];
        }
        i := i + 1;
      }
      assert entries[..i] == entries;
    }

    /** `sortByColumn()`, called only when `order[0]` names a column. */
    method SortByColumn()
      requires Valid() && |options.order| > 0
      modifies this
      ensures queryBuilder == old(queryBuilder) + SortRequestClauses(options, model)
      ensures totalCount == old(totalCount) && filteredCount == old(filteredCount)
    {
      var field := SortField(options.columns, options.order[0].column);
      if field.None? {
        return;
      }
      var f := field.value;
      var dir := options.order[0].dir;
      if f !in relations {
        queryBuilder := queryBuilder + [OrderBy(f, dir)];
        return;
      }
      SortOnRelation(f, dir);
    }

    /** The relation branch of `sortByColumn()`, by the class of the relation. */
    method SortOnRelation(f: string, dir: string)
      requires f in relations
      modifies this
      ensures queryBuilder == old(queryBuilder) + SortClauses(f, dir, model.table, relations)
      ensures totalCount == old(totalCount) && filteredCount == old(filteredCount)
    {
      var table := model.table;
      match relations[f] {
        case MorphTo(_) =>
        case Related(kind, other, fields) =>
          match kind {
            case BelongsTo(foreignKey, ownerKey) =>
              var head := [LeftJoin(other, foreignKey, ownerKey), SelectAll(table)];
              queryBuilder := queryBuilder + head;
              JoinOrders(other, fields, dir);
              AppendAssoc(old(queryBuilder), head, BelongsToOrders(other, fields, dir));
            case BelongsToMany(pivot, foreignPivotKey, parentKey, relatedPivotKey, relatedKeyName) =>
              var head := [LeftJoin(pivot, foreignPivotKey, parentKey),
                           LeftJoin(other, relatedPivotKey, Qualify(other, relatedKeyName)),
                           SelectAll(table), Distinct];
              queryBuilder := queryBuilder + head;
              OrderEach(other, fields, dir);
              AppendAssoc(old(queryBuilder), head, FieldOrders(other, fields, dir));
            case HasMany(foreignKey, parentKey) =>
              queryBuilder := queryBuilder + [OrderByCount(other, foreignKey, parentKey, dir)];
            case HasOne =>
              OrderEach(other, fields, dir);
            case OtherKind =>
          }
      }
    }

    /** The BelongsToMany and HasOne loops: one ORDER BY per sub-field. */
    method OrderEach(other: string, fields: seq<SubField>, dir: string)
      modifies this
      ensures queryBuilder == old(queryBuilder) + FieldOrders(other, fields, dir)
      ensures totalCount == old(totalCount) && filteredCount == old(filteredCount)
    {
      var i := 0;
      while i < |fields|
        invariant 0 <= i <= |fields|
        invariant queryBuilder == old(queryBuilder) + FieldOrders(other, fields[..i], dir)
        invariant totalCount == old(totalCount) && filteredCount == old(filteredCount)
      {
        assert fields[..i + 1][..i] == fields[..i];
        var order := OrderBy(Qualify(other, SubFieldLabel(fields[i])), dir);
        assert FieldOrders(other, fields[..i + 1], dir) == FieldOrders(other, fields[..i], dir) + [order];
        AppendAssoc(old(queryBuilder), FieldOrders(other, fields[..i], dir), [order]);
        queryBuilder := queryBuilder + [order];
        i := i + 1;
      }
      assert fields[..i] == fields;
    }

    /** The BelongsTo loop: an ORDER BY per sub-field, joining the through-relation first for a nested one. */
    method JoinOrders(other: string, fields: seq<SubField>, dir: string)
      modifies this
      ensures queryBuilder == old(queryBuilder) + BelongsToOrders(other, fields, dir)
      ensures totalCount == old(totalCount) && filteredCount == old(filteredCount)
    {
      var i := 0;
      while i < |fields|
        invariant 0 <= i <= |fields|
        invariant queryBuilder == old(queryBuilder) + BelongsToOrders(other, fields[..i], dir)
        invariant totalCount == old(totalCount) && filteredCount == old(filteredCount)
      {
        BelongsToOrdersStep(other, fields, i, dir);
        ghost var before := queryBuilder;
        match fields[i] {
          case Plain(name) =>
            queryBuilder := queryBuilder + [OrderBy(Qualify(other, name), dir)];
          case Nested(through, leaf) =>
            queryBuilder := queryBuilder
              + [LeftJoin(through.table, through.foreignKey, through.ownerKey),
                 OrderBy(Qualify(through.table, LeafLabel(leaf)), dir)];
        }
        assert queryBuilder == before + BelongsToOrder(other, fields[i], dir);
        AppendAssoc(old(queryBuilder), BelongsToOrders(other, fields[..i], dir), BelongsToOrder(other, fields[i], dir));
        i := i + 1;
      }
      assert fields[..i] == fields;
    }

    /** `search()`: the global search, or the exception for a model without a search scope. */
    method GlobalSearchStep() returns (r: Result<bool>)
      modifies this
      ensures var g := GlobalSearch(options.search, model.hasSearchScope);
        && (g.Err? ==> r == Err(g.error) && queryBuilder == old(queryBuilder))
        && (g.Ok? ==> r == Ok(g.value.occurred) && queryBuilder == old(queryBuilder) + g.value.clauses)
      ensures totalCount == old(totalCount) && filteredCount == old(filteredCount)
    {
      if IsEmpty(options.search) {
        return Ok(false);
      }
      if !model.hasSearchScope {
        return Err(MissingSearchScope);
      }
      AddTermGroups(Explode(" ", Trim(options.search, Whitespace)));
      r := Ok(true);
    }

    /** The loop of `search()`: one `where` group per piece whose trimmed text is not PHP-empty. */
    method AddTermGroups(terms: seq<string>)
      modifies this
      ensures queryBuilder == old(queryBuilder) + TermGroups(KeptTerms(terms))
      ensures totalCount == old(totalCount) && filteredCount == old(filteredCount)
    {
      var i := 0;
      while i < |terms|
        invariant 0 <= i <= |terms|
        invariant queryBuilder == old(queryBuilder) + TermGroups(KeptTerms(terms[..i]))
        invariant totalCount == old(totalCount) && filteredCount == old(filteredCount)
      {
        TermStep(terms, i);
        var term := Trim(terms[i], Whitespace);
        var added := if !IsEmpty(term) then [Group(And, [SearchCall(term)])] else [];
        AppendAssoc(old(queryBuilder), TermGroups(KeptTerms(terms[..i])), added);
        queryBuilder := queryBuilder + added;
        i := i + 1;
      }
      assert terms[..i] == terms;
    }

    /** `searchByColumn()`: one AND group per searched column, or the first date that does not parse. */
    method SearchByColumn() returns (r: Result<bool>)
      requires Valid()
      modifies this
      ensures var c := ColumnSearch(options.columns, model.table, Catalog(model), model.jsonColumns, config, driver);
        && (c.Err? ==> r == Err(c.error))
        && (c.Ok? ==> r == Ok(c.value.occurred) && queryBuilder == old(queryBuilder) + c.value.clauses)
      ensures totalCount == old(totalCount) && filteredCount == old(filteredCount)
    {
      var cols := options.columns;
      var result := false;
      var added: seq<Clause> := [];
      var i := 0;
      while i < |cols|
        invariant 0 <= i <= |cols|
        invariant ColumnSearch(cols[..i], model.table, relations, model.jsonColumns, config, driver)
          == Ok(Applied(added, result))
        invariant queryBuilder == old(queryBuilder) + added
        invariant totalCount == old(totalCount) && filteredCount == old(filteredCount)
      {
        ColumnStep(cols, i, model.table, relations, model.jsonColumns, config, driver);
        var v := cols[i].search;
        if !IsEmpty(v) || v == "0" {
          result := true;
          var group := ColumnGroup(cols[i], model.table, relations, model.jsonColumns, config, driver);
          if group.Err? {
            ColumnFailureStops(cols, i + 1, model.table, relations, model.jsonColumns, config, driver);
            return Err(group.error);
          }
          AppendAssoc(old(queryBuilder), added, group.value);
          added := added + group.value;
          queryBuilder := queryBuilder + group.value;
        }
        i := i + 1;
      }
      assert cols[..i] == cols;
      r := Ok(result);
    }

    /** `getFormatedData()`: the page of projected rows with the draw counter and both counts. */
    method FormattedData(eval: seq<Clause> -> seq<Row>, project: Row -> Record) returns (r: Response)
      ensures r == Response(options.draw, totalCount, filteredCount,
                            Project(Page(eval(queryBuilder), options.start, options.length), project))
      ensures options.length.Limit? ==> |r.data| <= options.length.count
    {
      var collection := Page(eval(queryBuilder), options.start, options.length);
      r := Response(options.draw, totalCount, filteredCount, Project(collection, project));
    }

    /** The steps of `response()` before the first count: scope, extra conditions, ordering. */
    method BuildBase()
      requires Valid()
      modifies this
      ensures queryBuilder == old(queryBuilder) + BaseQuery(options, model)
      ensures totalCount == old(totalCount) && filteredCount == old(filteredCount)
    {
      ghost var start := queryBuilder;
      ScopeIfRequested();
      ghost var scoped := queryBuilder;
      FilterIfRequested();
      ghost var filtered := queryBuilder;
      SortIfRequested();
      ghost var a, b, c := ScopeStep(options, model), FilterClauses(options.extraWhere), SortStep(options, model);
      AppendAssoc(start, a, b);
      AppendAssoc(start, a + b, c);
    }

    method ScopeIfRequested()
      modifies this
      ensures queryBuilder == old(queryBuilder) + ScopeStep(options, model)
      ensures totalCount == old(totalCount) && filteredCount == old(filteredCount)
    {
      if ScopeRequested(options.scope) {
        ApplyScope();
      }
    }

    method FilterIfRequested()
      modifies this
      ensures queryBuilder == old(queryBuilder) + FilterClauses(options.extraWhere)
      ensures totalCount == old(totalCount) && filteredCount == old(filteredCount)
    {
      if options.extraWhere != [] {
        ApplyExtraWhere();
      }
    }

    method SortIfRequested()
      requires Valid()
      modifies this
      ensures queryBuilder == old(queryBuilder) + SortStep(options, model)
      ensures totalCount == old(totalCount) && filteredCount == old(filteredCount)
    {
      if SortRequested(options.order) {
        SortByColumn();
      }
    }

    /**
     * `response()` on a fresh builder: the steps in the source's order; the
     * response it returns, or the exception it ends in, is `Outcome`'s.
     */
    method Respond(count: seq<Clause> -> nat, eval: seq<Clause> -> seq<Row>, project: Row -> Record) returns (r: Result<Response>)
      requires Valid() && queryBuilder == []
      modifies this
      ensures r == Outcome(options, model, config, driver, count, eval, project)
      ensures r.Ok? ==> queryBuilder == Compile(options, model, config, driver).value.Final()
      ensures r.Ok? ==> totalCount == r.value.recordsTotal && filteredCount == r.value.recordsFiltered
    {
      BuildBase();
      ghost var base := BaseQuery(options, model);
      assert queryBuilder == base;
      totalCount := count(queryBuilder);
      var searchOccurred := GlobalSearchStep();
      if searchOccurred.Err? {
        return Err(searchOccurred.error);
      }
      ghost var global := GlobalSearch(options.search, model.hasSearchScope).value;
      var searchByColumnOccurred := SearchByColumn();
      if searchByColumnOccurred.Err? {
        return Err(searchByColumnOccurred.error);
      }
      ghost var columns := ColumnSearch(options.columns, model.table, Catalog(model), model.jsonColumns, config, driver).value;
      assert Compile(options, model, config, driver)
        == Ok(Plan(base, global.clauses + columns.clauses, global.occurred || columns.occurred));
      AppendAssoc(base, global.clauses, columns.clauses);
      filteredCount := if searchOccurred.value || searchByColumnOccurred.value then count(queryBuilder) else totalCount;
      var data := FormattedData(eval, project);
      r := Ok(data);
    }
  }

  /** One more piece of the global search value adds a group exactly when its trimmed text is not PHP-empty. */
  lemma TermStep(terms: seq<string>, i: nat)
    requires i < |terms|
    ensures var term := Trim(terms[i], Whitespace);
      TermGroups(KeptTerms(terms[..i + 1]))
        == TermGroups(KeptTerms(terms[..i])) + (if !IsEmpty(term) then [Group(And, [SearchCall(term)])] else [])
  {
    assert terms[..i + 1][..i] == terms[..i];
    var term := Trim(terms[i], Whitespace);
    var kept := KeptTerms(terms[..i]);
    if !IsEmpty(term) {
      assert KeptTerms(terms[..i + 1]) == kept + [term];
      assert (kept + [term])[..|kept|] == kept;
    } else {
      assert KeptTerms(terms[..i + 1]) == kept;
    }
  }

  lemma AppendAssoc(a: seq<Clause>, b: seq<Clause>, c: seq<Clause>)
    ensures a + b + c == a + (b + c)
  {
  }

  /** One more column: unchanged when its search value is "", else its group appended or its error. */
  lemma ColumnStep(cols: seq<Column>, i: nat, table: string, relations: map<string, Relation>,
                   jsonColumns: set<string>, cfg: Config, driver: Driver)
    requires i < |cols|
    ensures var before := ColumnSearch(cols[..i], table, relations, jsonColumns, cfg, driver);
            var group := ColumnClauses(cols[i], table, relations, jsonColumns, cfg, driver);
      before.Ok? ==>
        ColumnSearch(cols[..i + 1], table, relations, jsonColumns, cfg, driver)
          == if !HasColumnSearch(cols[i].search) then before
             else if group.Err? then Err(group.error)
             else Ok(Applied(before.value.clauses + group.value, true))
  {
    assert cols[..i + 1][..i] == cols[..i];
  }

  /** Once a column's group fails, the whole column search fails with that same error. */
  lemma {:induction false} ColumnFailureStops(cols: seq<Column>, k: nat, table: string, relations: map<string, Relation>,
                                              jsonColumns: set<string>, cfg: Config, driver: Driver)
    requires 0 < k <= |cols|
    requires ColumnSearch(cols[..k - 1], table, relations, jsonColumns, cfg, driver).Ok?
    requires HasColumnSearch(cols[k - 1].search)
    requires ColumnClauses(cols[k - 1], table, relations, jsonColumns, cfg, driver).Err?
    ensures ColumnSearch(cols, table, relations, jsonColumns, cfg, driver)
      == Err(ColumnClauses(cols[k - 1], table, relations, jsonColumns, cfg, driver).error)
    decreases |cols| - k
  {
    assert cols[..k][..k - 1] == cols[..k - 1];
    if k < |cols| {
      ColumnSearchErrStays(cols, k, table, relations, jsonColumns, cfg, driver);
    } else {
      assert cols[..k] == cols;
    }
  }

  lemma {:induction false} ColumnSearchErrStays(cols: seq<Column>, k: nat, table: string, relations: map<string, Relation>,
                                                jsonColumns: set<string>, cfg: Config, driver: Driver)
    requires k <= |cols|
    requires ColumnSearch(cols[..k], table, relations, jsonColumns, cfg, driver).Err?
    ensures ColumnSearch(cols, table, relations, jsonColumns, cfg, driver)
      == ColumnSearch(cols[..k], table, relations, jsonColumns, cfg, driver)
    decreases |cols| - k
  {
    if k < |cols| {
      assert cols[..k + 1][..k] == cols[..k];
      ColumnSearchErrStays(cols, k + 1, table, relations, jsonColumns, cfg, driver);
    } else {
      assert cols[..k] == cols;
    }
  }
}
