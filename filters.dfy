/** The clauses `applyScope` and `applyExtraWhere` add to the builder. */
module Filters {
  import opened Common
  import opened PhpStrings
  import opened Query
  import opened Request

  /** `! empty($this->options['scope'])`: a name other than "" and "0", or a non-empty list. */
  predicate ScopeRequested(scope: Option<ScopeOption>) {
    scope.Some? &&
    match scope.value
    case ScopeName(name) => !IsEmpty(name)
    case ScopeList(items) => items != []
  }

  /**
   * The scope call `applyScope` makes: the named scope with the list's remaining
   * items as arguments, and nothing at all when the model has no such scope.
   */
  function ScopeClauses(scope: ScopeOption, scopes: set<string>): (r: seq<Clause>)
    requires scope.ScopeList? ==> scope.items != []
    ensures |r| <= 1
    ensures forall c :: c in r ==> c.ScopeCall? && c.name in scopes
    ensures scope.ScopeName? ==> (r != [] <==> scope.name in scopes)
    ensures scope.ScopeName? && r != [] ==> r[0] == ScopeCall(scope.name, [])
    ensures scope.ScopeList? ==> (r != [] <==> scope.items[0] in scopes)
    ensures scope.ScopeList? && r != [] ==> [r[0].name] + r[0].args == scope.items
  {
    match scope
    case ScopeName(name) =>
      if name in scopes then [ScopeCall(name, [])] else []
    case ScopeList(items) =>
      if items[0] in scopes then [ScopeCall(items[0], items[1..])] else []
  }

  /**
   * The clause one `extraWhere` entry becomes: an array gives `whereIn`; a scalar
   * gives `LIKE` when it starts or ends with '%', and `=` otherwise.
   */
  function FilterClause(field: string, value: FilterValue): (c: Clause)
    ensures value.Values? ==> c == WhereIn(field, value.items)
    ensures value.Scalar? ==>
      c.Where? && c.conj == And && c.column == field && c.value == value.text
    ensures value.Scalar? ==>
      (c.op == Like <==>
        |value.text| > 0 && (value.text[0] == '%' || value.text[|value.text| - 1] == '%'))
  {
    match value
    case Values(items) => WhereIn(field, items)
    case Scalar(text) =>
      var s := text;
      assert StartsWith(s, "%") <==> |s| > 0 && s[0] == '%' by {
        if |s| > 0 { assert s[0..1] == [s[0]]; }
      }
      assert EndsWith(s, "%") <==> |s| > 0 && s[|s| - 1] == '%' by {
        if |s| > 0 { assert s[|s| - 1..|s|] == [s[|s| - 1]]; }
      }
      Where(And, field, if StartsWith(s, "%") || EndsWith(s, "%") then Like else Eq, s)
  }

  /** The clauses of `applyExtraWhere`'s loop over the entries, in order. */
  function FilterClauses(entries: seq<(string, FilterValue)>): seq<Clause> {
    if entries == [] then []
    else
      var last := entries[|entries| - 1];
      FilterClauses(entries[..|entries| - 1]) + [FilterClause(last.0, last.1)]
  }

  /** One clause per entry, the i-th clause made from the i-th entry. */
  lemma {:induction false} FilterClausesAt(entries: seq<(string, FilterValue)>)
    ensures |FilterClauses(entries)| == |entries|
    ensures forall i :: 0 <= i < |entries| ==>
      FilterClauses(entries)[i] == FilterClause(entries[i].0, entries[i].1)
  {
    if entries != [] {
      FilterClausesAt(entries[..|entries| - 1]);
    }
  }
}
