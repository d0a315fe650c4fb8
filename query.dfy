/**
 * The Eloquent query builder as the compiler sees it: a sequence of clauses,
 * appended in the order the builder calls are made. A closure passed to
 * `where`, `whereHas` or `orWhereHasMorph` builds a nested sequence of its own.
 */
module Query {

  /** How a clause attaches to the ones before it in its group: `where…` (AND) or `orWhere…` (OR). */
  datatype Conj = And | Or

  datatype Op = Eq | Like

  datatype Bound = AtLeast | AtMost

  /** The driver's SQL expression that renders a date column in the display format. */
  datatype DateExpr =
    | Strftime(format: string, column: string)    // sqlite: strftime('<format>', column)
    | DateFormat(column: string, format: string)  // other drivers: DATE_FORMAT(column, '<format>')

  datatype Clause =
    | ScopeCall(name: string, args: seq<string>)      // $builder->$scope(...$args)
    | Where(conj: Conj, column: string, op: Op, value: string)
    | WhereIn(column: string, values: seq<string>)
    | WhereNull(conj: Conj, column: string)
    // where(function ($query) { … }); a group whose closure added nothing is kept
    // here, though Laravel leaves an empty nested where out of the SQL it compiles
    | Group(conj: Conj, body: seq<Clause>)
    | SearchCall(term: string)                        // $query->search($term), the model's scopeSearch
    | WhereHas(relation: string, body: seq<Clause>)
    | WhereDoesntHave(relation: string)
    | OrWhereHasMorph(relation: string, models: seq<string>, body: seq<Clause>)
    | DateBound(table: string, column: string, bound: Bound, date: string)  // AND whereRaw DATE(`t`.`c`) >= / <= 'date'
    | DateExprLike(expr: DateExpr, pattern: string)   // orWhereRaw <expr> LIKE ?
    | JsonLike(column: string, pattern: string)       // whereRaw LOWER(JSON_EXTRACT(column, "$.*")) LIKE ?
    | LeftJoin(table: string, first: string, second: string)
    | SelectAll(table: string)                        // select('<table>.*')
    | Distinct
    | OrderBy(column: string, dir: string)
    | OrderByCount(related: string, foreignKey: string, parentKey: string, dir: string)
      // orderBy((SELECT COUNT(*) FROM related WHERE foreignKey = parentKey), dir)

  /** `table.column`. */
  function Qualify(table: string, column: string): string {
    table + "." + column
  }

  /** The LIKE pattern `%v%`. */
  function Wrap(v: string): string {
    "%" + v + "%"
  }

  /** A clause that restricts which rows match, as opposed to one that joins, selects or orders. */
  predicate IsCondition(c: Clause) {
    !(c.LeftJoin? || c.SelectAll? || c.Distinct? || c.OrderBy? || c.OrderByCount?)
  }

  predicate IsOrdering(c: Clause) {
    c.OrderBy? || c.OrderByCount?
  }

  /** How many ORDER BY keys a clause sequence adds. */
  function OrderKeys(cs: seq<Clause>): nat {
    if cs == [] then 0
    else OrderKeys(cs[..|cs| - 1]) + (if IsOrdering(cs[|cs| - 1]) then 1 else 0)
  }

  lemma {:induction false} OrderKeysAppend(a: seq<Clause>, b: seq<Clause>)
    ensures OrderKeys(a + b) == OrderKeys(a) + OrderKeys(b)
    decreases |b|
  {
    if b == [] {
      assert a + b == a;
    } else {
      assert (a + b)[..|a + b| - 1] == a + b[..|b| - 1];
      OrderKeysAppend(a, b[..|b| - 1]);
    }
  }
}
